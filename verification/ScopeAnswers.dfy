/** The whole answer of every call on a consistent ledger: its reply, its error, and every row it leaves. */
module ScopeAnswers {
  import opened Wrappers
  import opened Order
  import opened ScopeTypes
  import opened ScopeForest
  import opened ScopeConsistency
  import opened ScopeLedger
  import opened ScopeChargeSteps
  import opened ScopeRuns
  import opened ScopeAdmission

  /** The log with one more event at its end. */
  ghost function Noting(l: Ledger, scope: string, action: Option<string>, kind: EventKind, now: int,
                        digest: string): seq<AuthorityEvent> {
    l.events + [AuthorityEvent(|l.events| + 1, scope, action, kind, Some(now), digest)]
  }

  /** The climb from a row: its missing scope, its inactive ancestry, or its rows with its own first. */
  ghost predicate Climbs(c: Contracts, scopes: Scopes, scope: string, now: int)
    requires Forest(scopes)
  {
    if scope !in scopes then ActiveChain(c, scopes, scope, now) == Err(NotFound)
    else if !LineActive(scopes, scope, now) then ActiveChain(c, scopes, scope, now) == Err(Inactive)
    else
      var rows := Rows(scopes, Line(scopes, scope));
      |rows| > 0 && rows[0] == scopes[scope] && ActiveChain(c, scopes, scope, now) == Ok(rows)
  }

  lemma ClimbExact(c: Contracts, scopes: Scopes, scope: string, now: int)
    requires Lawful(c) && SoundScopes(c, scopes) && Forest(scopes)
    ensures Climbs(c, scopes, scope, now)
  {
    ActiveIsLine(c, scopes, scope, now);
    ChainIsLine(c, scopes, scope);
  }

  // ------------------------------------------------------------------ issue

  /** The first reason against issuing, on the forest. */
  ghost function IssueRefusal(c: Contracts, l: Ledger, g: ScopeGrant, guard: Guard, now: int): Option<StoreError>
    requires Forest(l.scopes)
  {
    if g.scopeId in l.scopes then if l.scopes[g.scopeId].grant == g then None else Some(IdempotencyConflict)
    else if g.expiresAt <= now then Some(Inactive)
    else if g.parentId.Some? && g.parentId.value !in l.scopes then Some(NotFound)
    else if g.parentId.Some? && !LineActive(l.scopes, g.parentId.value, now) then Some(Inactive)
    else if g.parentId.Some? && c.childOf(g, l.scopes[g.parentId.value].grant).Some? then
      Some(Validation(c.childOf(g, l.scopes[g.parentId.value].grant).value))
    else if guard.verifyScope(g, now).Some? then Some(Authority(guard.verifyScope(g, now).value))
    else if !LogHasRoom(l) then Some(Corrupt)
    else None
  }

  ghost function Issued(c: Contracts, l: Ledger, g: ScopeGrant, now: int): Ledger {
    if g.scopeId in l.scopes then l
    else l.(scopes := l.scopes[g.scopeId := ScopeRecord(g, c.grantDigest(g), now, None, 0, {})],
            events := Noting(l, g.scopeId, None, ScopeIssued, now, c.grantDigest(g)))
  }

  lemma DelegableRefusal(c: Contracts, l: Ledger, g: ScopeGrant, now: int)
    requires Sound(c, l) && g.parentId.Some?
    ensures var p := g.parentId.value;
      Delegable(c, l, g, now) ==
        if p !in l.scopes then Some(NotFound)
        else if !LineActive(l.scopes, p, now) then Some(Inactive)
        else if c.childOf(g, l.scopes[p].grant).Some? then Some(Validation(c.childOf(g, l.scopes[p].grant).value))
        else None
  {
    var p := g.parentId.value;
    DelegableWhen(c, l, g, now);
    ClimbExact(c, l.scopes, p, now);
  }

  lemma IssueTxAnswer(c: Contracts, l: Ledger, g: ScopeGrant, guard: Guard, now: int)
    requires Sound(c, l)
    requires LoadScope(c, l.scopes, g.scopeId) ==
      if g.scopeId in l.scopes then Ok(l.scopes[g.scopeId]) else Err(NotFound)
    ensures var tx := IssueTx(c, l, g, guard, now);
      match IssueRefusal(c, l, g, guard, now)
      case Some(e) => tx.reply == Err(e)
      case None => tx.ledger == Issued(c, l, g, now) && tx.reply == Ok(OfScope(tx.ledger.scopes[g.scopeId]))
  {
    if g.parentId.Some? { DelegableRefusal(c, l, g, now); }
  }

  /** A commit at a time not behind the ledger: the body's answer, or its error and the time. */
  lemma MutateAnswer(c: Contracts, l: Ledger, call: Call)
    requires Metadata(c, l).None?
    ensures call.now < l.lastSeen ==> Mutate(c, l, call) == Tx(l, Err(ClockRollback))
    ensures l.lastSeen <= call.now ==>
      var seen := l.(lastSeen := call.now);
      Mutate(c, l, call) ==
        if Body(c, seen, call).reply.Err? then Tx(seen, Body(c, seen, call).reply) else Body(c, seen, call)
  {
  }

  /** What issuing answers: the error of the first reason against it, or the row now stored. */
  lemma IssueAnswer(c: Contracts, l: Ledger, call: Call)
    requires Lawful(c) && Consistent(c, l) && call.IssueScope?
    ensures var tx, seen := Apply(c, l, call), l.(lastSeen := call.now);
      match c.canonGrant(call.grant)
      case Err(e) => tx == Tx(l, Err(Validation(e)))
      case Ok(g) =>
        if g.owner != l.owner then tx == Tx(l, Err(OwnerMismatch))
        else if call.now < l.lastSeen then tx == Tx(l, Err(ClockRollback))
        else
          match IssueRefusal(c, l, g, call.guard, call.now)
          case Some(e) => tx == Tx(seen, Err(e))
          case None =>
            && tx.ledger == Issued(c, seen, g, call.now) && g.scopeId in tx.ledger.scopes
            && tx.reply == Ok(OfScope(tx.ledger.scopes[g.scopeId]))
  {
    ConsistentSound(c, l);
    if c.canonGrant(call.grant).Ok? {
      var g := c.canonGrant(call.grant).value;
      LoadsScope(c, l, g.scopeId);
      IssueApplies(c, l, call, g);
    }
  }

  lemma IssueApplies(c: Contracts, l: Ledger, call: Call, g: ScopeGrant)
    requires call.IssueScope? && c.canonGrant(call.grant) == Ok(g) && Sound(c, l) && Metadata(c, l).None?
    requires LoadScope(c, l.scopes, g.scopeId) ==
      if g.scopeId in l.scopes then Ok(l.scopes[g.scopeId]) else Err(NotFound)
    ensures var tx, seen := Apply(c, l, call), l.(lastSeen := call.now);
      if g.owner != l.owner then tx == Tx(l, Err(OwnerMismatch))
      else if call.now < l.lastSeen then tx == Tx(l, Err(ClockRollback))
      else
        match IssueRefusal(c, l, g, call.guard, call.now)
        case Some(e) => tx == Tx(seen, Err(e))
        case None =>
          && tx.ledger == Issued(c, seen, g, call.now) && g.scopeId in tx.ledger.scopes
          && tx.reply == Ok(OfScope(tx.ledger.scopes[g.scopeId]))
  {
    var seen := l.(lastSeen := call.now);
    MutateAnswer(c, l, call.(grant := g));
    IssueTxAnswer(c, seen, g, call.guard, call.now);
    assert IssueRefusal(c, seen, g, call.guard, call.now) == IssueRefusal(c, l, g, call.guard, call.now);
  }

  // ------------------------------------------------------------------ reserve

  /** The first reason against charging an attempt; `afford` says whether every ancestor can take it. */
  ghost function ReserveRefusal(c: Contracts, l: Ledger, p: PreparedAction, e: AdmissionEvidence, guard: Guard,
                                now: int, afford: bool): Option<StoreError>
    requires Forest(l.scopes)
  {
    if Collision(l, p) then
      if p.actionId in l.actions && l.actions[p.actionId].action == p then None else Some(IdempotencyConflict)
    else if p.scopeId !in l.scopes then Some(NotFound)
    else if !LineActive(l.scopes, p.scopeId, now) then Some(Inactive)
    else
      var g := l.scopes[p.scopeId].grant;
      if c.admits(e, g, p, now).Some? then Some(Validation(c.admits(e, g, p, now).value))
      else if guard.verifyAction(g, p, e, now).Some? then Some(Authority(guard.verifyAction(g, p, e, now).value))
      else if !afford then Some(BudgetExceeded)
      else if !LogHasRoom(l) then Some(Corrupt)
      else None
  }

  /** The ledger after charging one attempt: one row, one event, and every ancestor charged once. */
  ghost predicate Charges1(c: Contracts, l: Ledger, m: Ledger, p: PreparedAction, e: AdmissionEvidence, now: int)
    requires Forest(l.scopes)
  {
    && m.owner == l.owner && m.lastSeen == l.lastSeen
    && m.actions == l.actions[p.actionId := ActionRecord(p, c.actionDigest(p), e, now, None, None, Reserved)]
    && m.events == Noting(l, p.scopeId, Some(p.actionId), AttemptCharged, now, c.actionDigest(p))
    && m.scopes.Keys == l.scopes.Keys
    && forall a :: a in l.scopes ==>
         m.scopes[a] ==
           if Above(l.scopes, a, p.scopeId) then
             l.scopes[a].(chargedAttempts := l.scopes[a].chargedAttempts + 1,
                          chargedResources := l.scopes[a].chargedResources + {p.resource})
           else l.scopes[a]
  }

  ghost predicate Reserves1(c: Contracts, l: Ledger, tx: Tx, p: PreparedAction, e: AdmissionEvidence, now: int)
    requires Forest(l.scopes)
  {
    && (if Collision(l, p) then tx.ledger == l else Charges1(c, l, tx.ledger, p, e, now))
    && p.actionId in tx.ledger.actions && tx.reply == Ok(OfAction(tx.ledger.actions[p.actionId]))
  }

  lemma ReserveTxRefusal(c: Contracts, l: Ledger, p: PreparedAction, e: AdmissionEvidence, guard: Guard, now: int,
                         rows: seq<ScopeRecord>)
    requires !(exists id :: id in l.actions && Collides(l.actions[id].action, p))
    requires LastSequence(l.events) == |l.events|
    requires |rows| > 0 && ActiveChain(c, l.scopes, p.scopeId, now) == Ok(rows)
    ensures var tx, g := ReserveTx(c, l, p, e, guard, now), rows[0].grant;
      if c.admits(e, g, p, now).Some? then tx.reply == Err(Validation(c.admits(e, g, p, now).value))
      else if guard.verifyAction(g, p, e, now).Some? then
        tx.reply == Err(Authority(guard.verifyAction(g, p, e, now).value))
      else if exists i :: 0 <= i < |rows| && !HasRoom(rows[i], p.resource) then tx.reply == Err(BudgetExceeded)
      else if !LogHasRoom(l) then tx.reply == Err(Corrupt)
      else
        && p.actionId in tx.ledger.actions && tx.reply == Ok(OfAction(tx.ledger.actions[p.actionId]))
        && tx.ledger.owner == l.owner && tx.ledger.lastSeen == l.lastSeen
        && tx.ledger.actions ==
           l.actions[p.actionId := ActionRecord(p, c.actionDigest(p), e, now, None, None, Reserved)]
        && tx.ledger.events == Noting(l, p.scopeId, Some(p.actionId), AttemptCharged, now, c.actionDigest(p))
        && tx.ledger.scopes == ChargeAll(l.scopes, rows, p.resource)
  {
  }

  lemma LineCharged(scopes: Scopes, scope: string, resource: string)
    requires Forest(scopes) && scope in scopes
    ensures var after := ChargedLine(scopes, scope, resource);
      && after.Keys == scopes.Keys
      && forall a :: a in scopes ==>
           after[a] ==
             if Above(scopes, a, scope) then
               scopes[a].(chargedAttempts := scopes[a].chargedAttempts + 1,
                          chargedResources := scopes[a].chargedResources + {resource})
             else scopes[a]
  {
  }

  lemma ReserveTxAnswer(c: Contracts, l: Ledger, p: PreparedAction, e: AdmissionEvidence, guard: Guard, now: int)
    requires Sound(c, l)
    ensures var tx := ReserveTx(c, l, p, e, guard, now);
      match ReserveRefusal(c, l, p, e, guard, now, LineHasRoom(l.scopes, p.scopeId, p.resource))
      case Some(x) => tx.reply == Err(x)
      case None => Reserves1(c, l, tx, p, e, now)
  {
    CollisionExact(l, p);
    ClimbExact(c, l.scopes, p.scopeId, now);
    if !Collision(l, p) { ReserveClimbs(c, l, p, e, guard, now); }
  }

  lemma ReserveClimbs(c: Contracts, l: Ledger, p: PreparedAction, e: AdmissionEvidence, guard: Guard, now: int)
    requires Forest(l.scopes) && LastSequence(l.events) == |l.events| && Climbs(c, l.scopes, p.scopeId, now)
    requires !Collision(l, p) && !(exists id :: id in l.actions && Collides(l.actions[id].action, p))
    ensures var tx := ReserveTx(c, l, p, e, guard, now);
      match ReserveRefusal(c, l, p, e, guard, now, LineHasRoom(l.scopes, p.scopeId, p.resource))
      case Some(x) => tx.reply == Err(x)
      case None => Reserves1(c, l, tx, p, e, now)
  {
    if p.scopeId in l.scopes && LineActive(l.scopes, p.scopeId, now) {
      LineRoom(l.scopes, p.scopeId, p.resource);
      ReserveTxRefusal(c, l, p, e, guard, now, Rows(l.scopes, Line(l.scopes, p.scopeId)));
      ChargeAllIsLine(l.scopes, p.scopeId, p.resource);
      LineCharged(l.scopes, p.scopeId, p.resource);
    }
  }

  lemma ReserveCall(c: Contracts, l: Ledger, call: Call, p: PreparedAction)
    requires call.Reserve? && c.canonAction(call.action) == Ok(p) && Sound(c, l) && Metadata(c, l).None?
    requires p.owner == l.owner && l.lastSeen <= call.now
    ensures var tx, seen := Apply(c, l, call), l.(lastSeen := call.now);
      var afford := LineHasRoom(l.scopes, p.scopeId, p.resource);
      match ReserveRefusal(c, l, p, call.evidence, call.guard, call.now, afford)
      case Some(x) => tx == Tx(seen, Err(x))
      case None => Reserves1(c, seen, tx, p, call.evidence, call.now)
  {
    var seen := l.(lastSeen := call.now);
    var afford := LineHasRoom(l.scopes, p.scopeId, p.resource);
    MutateAnswer(c, l, call.(action := p));
    ReserveTxAnswer(c, seen, p, call.evidence, call.guard, call.now);
    ReserveLater(c, l, p, call.evidence, call.guard, call.now, afford);
  }

  /** The refusal does not depend on when the ledger was last seen. */
  lemma ReserveLater(c: Contracts, l: Ledger, p: PreparedAction, e: AdmissionEvidence, guard: Guard, now: int,
                     afford: bool)
    requires Forest(l.scopes)
    ensures var seen := l.(lastSeen := now);
      ReserveRefusal(c, seen, p, e, guard, now, afford) == ReserveRefusal(c, l, p, e, guard, now, afford)
  {
    assert Collision(l.(lastSeen := now), p) <==> Collision(l, p);
  }

  /** What reserving answers: the error of the first reason against it, or the row now stored. */
  lemma ReserveAnswer(c: Contracts, l: Ledger, call: Call)
    requires Lawful(c) && Consistent(c, l) && call.Reserve?
    ensures var tx, seen := Apply(c, l, call), l.(lastSeen := call.now);
      match c.canonAction(call.action)
      case Err(x) => tx == Tx(l, Err(Validation(x)))
      case Ok(p) =>
        if p.owner != l.owner then tx == Tx(l, Err(OwnerMismatch))
        else if call.now < l.lastSeen then tx == Tx(l, Err(ClockRollback))
        else
          var afford := Affordable(l, p.scopeId, p.resource);
          match ReserveRefusal(c, l, p, call.evidence, call.guard, call.now, afford)
          case Some(x) => tx == Tx(seen, Err(x))
          case None => Reserves1(c, seen, tx, p, call.evidence, call.now)
  {
    ConsistentSound(c, l);
    if c.canonAction(call.action).Ok? {
      var p := c.canonAction(call.action).value;
      LineAffordable(c, l, p.scopeId, p.resource);
      if p.owner == l.owner && l.lastSeen <= call.now { ReserveCall(c, l, call, p); }
    }
  }

  // ------------------------------------------------------------------ claim

  ghost function ClaimRefusal(c: Contracts, l: Ledger, id: string, digest: string, guard: Guard,
                              now: int): Option<StoreError>
    requires Forest(l.scopes)
  {
    if id !in l.actions then Some(NotFound)
    else
      var r := l.actions[id];
      if r.digest != digest then Some(IdempotencyConflict)
      else if r.state != Reserved then Some(Consumed)
      else if r.action.scopeId !in l.scopes then Some(NotFound)
      else if !LineActive(l.scopes, r.action.scopeId, now) then Some(Inactive)
      else
        var g := l.scopes[r.action.scopeId].grant;
        if c.admits(r.evidence, g, r.action, now).Some? then
          Some(Validation(c.admits(r.evidence, g, r.action, now).value))
        else if guard.verifyAction(g, r.action, r.evidence, now).Some? then
          Some(Authority(guard.verifyAction(g, r.action, r.evidence, now).value))
        else if !LogHasRoom(l) then Some(Corrupt)
        else None
  }

  /** One action row replaced, and one event. */
  ghost predicate Moves(l: Ledger, tx: Tx, id: string, r: ActionRecord, kind: EventKind, now: int) {
    && tx.ledger == l.(actions := l.actions[id := r],
                       events := Noting(l, r.action.scopeId, Some(id), kind, now, r.digest))
    && tx.reply == Ok(OfAction(r))
  }

  lemma ClaimTxAnswer(c: Contracts, l: Ledger, id: string, digest: string, guard: Guard, now: int)
    requires Sound(c, l)
    requires LoadAction(c, l, id) == if id in l.actions then Ok(l.actions[id]) else Err(NotFound)
    ensures var tx := ClaimTx(c, l, id, digest, guard, now);
      match ClaimRefusal(c, l, id, digest, guard, now)
      case Some(e) => tx.reply == Err(e)
      case None =>
        Moves(l, tx, id, l.actions[id].(state := DispatchClaimed, dispatchClaimedAt := Some(now)), ClaimRecorded, now)
  {
    if id in l.actions {
      ClimbExact(c, l.scopes, l.actions[id].action.scopeId, now);
      ClaimClimbs(c, l, id, digest, guard, now);
    }
  }

  lemma ClaimClimbs(c: Contracts, l: Ledger, id: string, digest: string, guard: Guard, now: int)
    requires Forest(l.scopes) && LastSequence(l.events) == |l.events|
    requires id in l.actions && LoadAction(c, l, id) == Ok(l.actions[id])
    requires Climbs(c, l.scopes, l.actions[id].action.scopeId, now)
    ensures var tx := ClaimTx(c, l, id, digest, guard, now);
      match ClaimRefusal(c, l, id, digest, guard, now)
      case Some(e) => tx.reply == Err(e)
      case None =>
        Moves(l, tx, id, l.actions[id].(state := DispatchClaimed, dispatchClaimedAt := Some(now)), ClaimRecorded, now)
  {
  }

  lemma ClaimCall(c: Contracts, l: Ledger, call: Call)
    requires call.ClaimDispatch? && Sound(c, l) && Metadata(c, l).None? && l.lastSeen <= call.now
    requires LoadAction(c, l, call.actionId) ==
      if call.actionId in l.actions then Ok(l.actions[call.actionId]) else Err(NotFound)
    ensures var tx, seen, id := Apply(c, l, call), l.(lastSeen := call.now), call.actionId;
      match ClaimRefusal(c, l, id, call.expectedDigest, call.guard, call.now)
      case Some(e) => tx == Tx(seen, Err(e))
      case None =>
        Moves(seen, tx, id, l.actions[id].(state := DispatchClaimed, dispatchClaimedAt := Some(call.now)),
              ClaimRecorded, call.now)
  {
    var seen := l.(lastSeen := call.now);
    MutateAnswer(c, l, call);
    ClaimTxAnswer(c, seen, call.actionId, call.expectedDigest, call.guard, call.now);
    ClaimLater(c, l, call.actionId, call.expectedDigest, call.guard, call.now);
  }

  lemma ClaimLater(c: Contracts, l: Ledger, id: string, digest: string, guard: Guard, now: int)
    requires Forest(l.scopes)
    ensures ClaimRefusal(c, l.(lastSeen := now), id, digest, guard, now) == ClaimRefusal(c, l, id, digest, guard, now)
  {
  }

  /** What a dispatch claim answers: the error of the first reason against it, or the claimed row now stored. */
  lemma ClaimAnswer(c: Contracts, l: Ledger, call: Call)
    requires Lawful(c) && Consistent(c, l) && call.ClaimDispatch?
    ensures var tx, seen, id := Apply(c, l, call), l.(lastSeen := call.now), call.actionId;
      if call.now < l.lastSeen then tx == Tx(l, Err(ClockRollback))
      else
        match ClaimRefusal(c, l, id, call.expectedDigest, call.guard, call.now)
        case Some(e) => tx == Tx(seen, Err(e))
        case None =>
          Moves(seen, tx, id, l.actions[id].(state := DispatchClaimed, dispatchClaimedAt := Some(call.now)),
                ClaimRecorded, call.now)
  {
    ConsistentSound(c, l);
    LoadsAction(c, l, call.actionId);
    if l.lastSeen <= call.now { ClaimCall(c, l, call); }
  }

  // ------------------------------------------------------------------ finish

  ghost function FinishRefusal(l: Ledger, id: string, outcome: Outcome): Option<StoreError> {
    if id !in l.actions then Some(NotFound)
    else
      match l.actions[id].state
      case DispatchClaimed => if LogHasRoom(l) then None else Some(Corrupt)
      case Reserved =>
        if outcome.Accepted? then Some(InvalidTransition) else if LogHasRoom(l) then None else Some(Corrupt)
      case _ => Some(InvalidTransition)
  }

  ghost function Ended(r: ActionRecord, outcome: Outcome, now: int): ActionRecord {
    match outcome
    case Accepted => r.(state := ApiAccepted, finishedAt := Some(now))
    case Refused => r.(state := Rejected, finishedAt := Some(now))
    case Uncertain => r.(state := Unknown, finishedAt := Some(now))
  }

  lemma FinishCall(c: Contracts, l: Ledger, call: Call)
    requires call.Finish? && Metadata(c, l).None? && LastSequence(l.events) == |l.events| && l.lastSeen <= call.now
    requires LoadAction(c, l, call.actionId) ==
      if call.actionId in l.actions then Ok(l.actions[call.actionId]) else Err(NotFound)
    ensures var tx, seen, id := Apply(c, l, call), l.(lastSeen := call.now), call.actionId;
      match FinishRefusal(l, id, call.outcome)
      case Some(e) => tx == Tx(seen, Err(e))
      case None => Moves(seen, tx, id, Ended(l.actions[id], call.outcome, call.now), AttemptFinished, call.now)
  {
    MutateAnswer(c, l, call);
  }

  /** What recording an outcome answers: why it is refused, or the ended row now stored. */
  lemma FinishAnswer(c: Contracts, l: Ledger, call: Call)
    requires Lawful(c) && Consistent(c, l) && call.Finish?
    ensures var tx, seen, id := Apply(c, l, call), l.(lastSeen := call.now), call.actionId;
      if call.now < l.lastSeen then tx == Tx(l, Err(ClockRollback))
      else
        match FinishRefusal(l, id, call.outcome)
        case Some(e) => tx == Tx(seen, Err(e))
        case None => Moves(seen, tx, id, Ended(l.actions[id], call.outcome, call.now), AttemptFinished, call.now)
  {
    ConsistentSound(c, l);
    LoadsAction(c, l, call.actionId);
    if l.lastSeen <= call.now { FinishCall(c, l, call); }
  }

  // ------------------------------------------------------------------ revoke

  lemma RevokeCall(c: Contracts, l: Ledger, call: Call)
    requires call.Revoke? && Metadata(c, l).None? && LastSequence(l.events) == |l.events| && l.lastSeen <= call.now
    requires LoadScope(c, l.scopes, call.scopeId) ==
      if call.scopeId in l.scopes then Ok(l.scopes[call.scopeId]) else Err(NotFound)
    ensures var tx, seen, id := Apply(c, l, call), l.(lastSeen := call.now), call.scopeId;
      if id !in l.scopes then tx == Tx(seen, Err(NotFound))
      else if l.scopes[id].revokedAt.Some? then tx == Tx(seen, Ok(OfScope(l.scopes[id])))
      else if !LogHasRoom(l) then tx == Tx(seen, Err(Corrupt))
      else
        var r := l.scopes[id].(revokedAt := Some(call.now));
        && tx.reply == Ok(OfScope(r))
        && tx.ledger == seen.(scopes := l.scopes[id := r],
                              events := Noting(l, id, None, ScopeRevoked, call.now, r.digest))
  {
    MutateAnswer(c, l, call);
  }

  /** What revoking answers: a missing scope, the row as it was if it is revoked already, or the row marked now. */
  lemma RevokeAnswer(c: Contracts, l: Ledger, call: Call)
    requires Lawful(c) && Consistent(c, l) && call.Revoke?
    ensures var tx, seen, id := Apply(c, l, call), l.(lastSeen := call.now), call.scopeId;
      if call.now < l.lastSeen then tx == Tx(l, Err(ClockRollback))
      else if id !in l.scopes then tx == Tx(seen, Err(NotFound))
      else if l.scopes[id].revokedAt.Some? then tx == Tx(seen, Ok(OfScope(l.scopes[id])))
      else if !LogHasRoom(l) then tx == Tx(seen, Err(Corrupt))
      else
        var r := l.scopes[id].(revokedAt := Some(call.now));
        && tx.reply == Ok(OfScope(r))
        && tx.ledger == seen.(scopes := l.scopes[id := r],
                              events := Noting(l, id, None, ScopeRevoked, call.now, r.digest))
  {
    ConsistentSound(c, l);
    LoadsScope(c, l, call.scopeId);
    if l.lastSeen <= call.now { RevokeCall(c, l, call); }
  }

  // ------------------------------------------------------------------ recovery

  /** The interruptions of the listed unfinished attempts, in the order of the listing. */
  ghost function Interruptions(l: Ledger, ids: seq<string>): seq<AuthorityEvent>
    requires forall id :: id in ids ==> id in l.actions
  {
    if ids == [] then []
    else
      var n := |ids| - 1;
      var before, r := Interruptions(l, ids[..n]), l.actions[ids[n]];
      if r.state == Reserved || r.state == DispatchClaimed then
        before
          + [AuthorityEvent(|l.events| + |before| + 1, r.action.scopeId, Some(ids[n]), Interrupted, None, r.digest)]
      else before
  }

  /** Recovery logs one interruption per unfinished attempt, in id order and without a time. */
  lemma {:induction false} RecoverLog(l: Ledger, ids: seq<string>)
    requires LastSequence(l.events) == |l.events| && Rising(ids) && forall id :: id in ids ==> id in l.actions
    requires Recover(l, ids).Ok?
    ensures Recover(l, ids).value.events == l.events + Interruptions(l, ids)
    decreases |ids|
  {
    if ids != [] {
      var n := |ids| - 1;
      var m := RecoverLast(l, ids, Recover(l, ids).value);
      RecoverLog(l, ids[..n]);
      RecoverCounts(l, ids[..n]);
      LastUntouched(l, ids, m);
      InterruptLog(m, ids[n]);
      LogGrows(l, ids, m);
    }
  }

  lemma {:induction false} LogGrows(l: Ledger, ids: seq<string>, m: Ledger)
    requires |ids| > 0 && forall id :: id in ids ==> id in l.actions
    requires m.events == l.events + Interruptions(l, ids[..|ids| - 1])
    ensures var r := l.actions[ids[|ids| - 1]];
      l.events + Interruptions(l, ids) ==
        if r.state == Reserved || r.state == DispatchClaimed then
          m.events
            + [AuthorityEvent(|m.events| + 1, r.action.scopeId, Some(ids[|ids| - 1]), Interrupted, None, r.digest)]
        else m.events
  {
    var before, r := Interruptions(l, ids[..|ids| - 1]), l.actions[ids[|ids| - 1]];
    Regroup(l.events, before,
            AuthorityEvent(|m.events| + 1, r.action.scopeId, Some(ids[|ids| - 1]), Interrupted, None, r.digest));
  }

  lemma Regroup(a: seq<AuthorityEvent>, b: seq<AuthorityEvent>, e: AuthorityEvent)
    ensures a + (b + [e]) == (a + b) + [e]
  {
  }

  lemma InterruptLog(m: Ledger, id: string)
    requires id in m.actions && LastSequence(m.events) == |m.events| && Interrupt(m, id).reply.Ok?
    ensures var r := m.actions[id];
      Interrupt(m, id).ledger.events ==
        if r.state == Reserved || r.state == DispatchClaimed then
          m.events + [AuthorityEvent(|m.events| + 1, r.action.scopeId, Some(id), Interrupted, None, r.digest)]
        else m.events
  {
  }
}
