/** The transactions of the scope authority ledger as functions of the durable tables. */
module ScopeLedger {
  import opened Wrappers
  import opened Order
  import opened ScopeTypes
  import opened ScopeForest
  import opened ScopeConsistency

  /** The host's callbacks; any behaviour is allowed. `Some` is a refusal. */
  datatype Guard = Guard(
    verifyScope: (ScopeGrant, int) -> Option<string>,
    verifyAction: (ScopeGrant, PreparedAction, AdmissionEvidence, int) -> Option<string>)

  datatype Outcome = Accepted | Refused | Uncertain

  datatype Reply = OfScope(scope: ScopeRecord) | OfAction(action: ActionRecord)

  datatype Tx = Tx(ledger: Ledger, reply: Result<Reply, StoreError>)

  datatype Call =
    | IssueScope(grant: ScopeGrant, guard: Guard, now: int)
    | Reserve(action: PreparedAction, evidence: AdmissionEvidence, guard: Guard, now: int)
    | ClaimDispatch(actionId: string, expectedDigest: string, guard: Guard, now: int)
    | Finish(actionId: string, outcome: Outcome, now: int)
    | Revoke(scopeId: string, now: int)

  function LastSequence(events: seq<AuthorityEvent>): nat {
    if events == [] then 0 else events[|events| - 1].sequence
  }

  /** Append after the highest sequence, which must still fit a signed 64-bit integer. */
  function Log(l: Ledger, reply: Reply, scope: string, action: Option<string>, kind: EventKind, at: Option<int>,
               digest: string): Tx {
    if LastSequence(l.events) >= I64_MAX then Tx(l, Err(Corrupt))
    else Tx(l.(events := l.events + [AuthorityEvent(LastSequence(l.events) + 1, scope, action, kind, at, digest)]),
            Ok(reply))
  }

  function LoadAction(c: Contracts, l: Ledger, id: string): Result<ActionRecord, StoreError> {
    if id !in l.actions then Err(NotFound)
    else
      var r := l.actions[id];
      if r.action.actionId != id then Err(Corrupt)
      else
        match c.canonAction(r.action)
        case Err(e) => Err(Validation(e))
        case Ok(a) => if a != r.action || r.digest != c.actionDigest(r.action) then Err(Corrupt) else Ok(r)
  }

  // ------------------------------------------------------------------ issue

  /** Whether the parent chain lets this child be issued; a root has no such condition. */
  function Delegable(c: Contracts, l: Ledger, grant: ScopeGrant, now: int): Option<StoreError> {
    match grant.parentId
    case None => None
    case Some(p) =>
      match ActiveChain(c, l.scopes, p, now)
      case Err(e) => Some(e)
      case Ok(chain) =>
        if c.childOf(grant, chain[0].grant).Some? then Some(Validation(c.childOf(grant, chain[0].grant).value))
        else if |chain| > MAX_DEPTH then Some(Validation(NotSubset))
        else None
  }

  function IssueTx(c: Contracts, l: Ledger, grant: ScopeGrant, guard: Guard, now: int): Tx {
    match LoadScope(c, l.scopes, grant.scopeId)
    case Ok(existing) =>
      if existing.grant == grant then Tx(l, Ok(OfScope(existing))) else Tx(l, Err(IdempotencyConflict))
    case Err(e) =>
      if !e.NotFound? then Tx(l, Err(e))
      else if now >= grant.expiresAt then Tx(l, Err(Inactive))
      else if Delegable(c, l, grant, now).Some? then Tx(l, Err(Delegable(c, l, grant, now).value))
      else if guard.verifyScope(grant, now).Some? then Tx(l, Err(Authority(guard.verifyScope(grant, now).value)))
      else
        var record := ScopeRecord(grant, c.grantDigest(grant), now, None, 0, {});
        Log(l.(scopes := l.scopes[grant.scopeId := record]), OfScope(record), grant.scopeId, None, ScopeIssued,
            Some(now), record.digest)
  }

  // ------------------------------------------------------------------ reserve

  /** A row the duplicate lookup can return: the same action id, or the same request identity. */
  predicate Collides(stored: PreparedAction, proposed: PreparedAction) {
    stored.actionId == proposed.actionId || SameRequest(stored, proposed)
  }

  predicate HasRoom(r: ScopeRecord, resource: string) {
    && r.chargedAttempts < r.grant.maxChargedAttempts
    && (resource in r.chargedResources || |r.chargedResources| < r.grant.maxDistinctResources)
  }

  function Charge(r: ScopeRecord, resource: string): ScopeRecord {
    r.(chargedAttempts := r.chargedAttempts + 1, chargedResources := r.chargedResources + {resource})
  }

  /** Charge every scope of a chain at once. */
  function ChargeAll(scopes: Scopes, chain: seq<ScopeRecord>, resource: string): Scopes {
    map id | id in scopes :: if Visited(chain, id) then Charge(scopes[id], resource) else scopes[id]
  }

  function ReserveTx(c: Contracts, l: Ledger, action: PreparedAction, evidence: AdmissionEvidence, guard: Guard,
                     now: int): Tx {
    if exists id :: id in l.actions && Collides(l.actions[id].action, action) then
      if action.actionId in l.actions && l.actions[action.actionId].action == action then
        Tx(l, Ok(OfAction(l.actions[action.actionId])))
      else Tx(l, Err(IdempotencyConflict))
    else
      match ActiveChain(c, l.scopes, action.scopeId, now)
      case Err(e) => Tx(l, Err(e))
      case Ok(chain) =>
        if c.admits(evidence, chain[0].grant, action, now).Some? then
          Tx(l, Err(Validation(c.admits(evidence, chain[0].grant, action, now).value)))
        else if guard.verifyAction(chain[0].grant, action, evidence, now).Some? then
          Tx(l, Err(Authority(guard.verifyAction(chain[0].grant, action, evidence, now).value)))
        else if exists i :: 0 <= i < |chain| && !HasRoom(chain[i], action.resource) then Tx(l, Err(BudgetExceeded))
        else
          var record := ActionRecord(action, c.actionDigest(action), evidence, now, None, None, Reserved);
          Log(l.(scopes := ChargeAll(l.scopes, chain, action.resource),
                 actions := l.actions[action.actionId := record]),
              OfAction(record), action.scopeId, Some(action.actionId), AttemptCharged, Some(now), record.digest)
  }

  // ------------------------------------------------------------------ claim, finish, revoke

  function ClaimTx(c: Contracts, l: Ledger, id: string, expectedDigest: string, guard: Guard, now: int): Tx {
    match LoadAction(c, l, id)
    case Err(e) => Tx(l, Err(e))
    case Ok(r) =>
      if r.digest != expectedDigest then Tx(l, Err(IdempotencyConflict))
      else if !r.state.Reserved? then Tx(l, Err(Consumed))
      else
        match ActiveChain(c, l.scopes, r.action.scopeId, now)
        case Err(e) => Tx(l, Err(e))
        case Ok(chain) =>
          if c.admits(r.evidence, chain[0].grant, r.action, now).Some? then
            Tx(l, Err(Validation(c.admits(r.evidence, chain[0].grant, r.action, now).value)))
          else if guard.verifyAction(chain[0].grant, r.action, r.evidence, now).Some? then
            Tx(l, Err(Authority(guard.verifyAction(chain[0].grant, r.action, r.evidence, now).value)))
          else
            var record := r.(state := DispatchClaimed, dispatchClaimedAt := Some(now));
            Log(l.(actions := l.actions[id := record]), OfAction(record), r.action.scopeId, Some(id), ClaimRecorded,
                Some(now), r.digest)
  }

  function FinalState(outcome: Outcome): ExecutionState {
    match outcome
    case Accepted => ApiAccepted
    case Refused => Rejected
    case Uncertain => Unknown
  }

  function FinishTx(c: Contracts, l: Ledger, id: string, outcome: Outcome, now: int): Tx {
    match LoadAction(c, l, id)
    case Err(e) => Tx(l, Err(e))
    case Ok(r) =>
      if !Pending(r) || (outcome.Accepted? && !r.state.DispatchClaimed?) then Tx(l, Err(InvalidTransition))
      else
        var record := r.(state := FinalState(outcome), finishedAt := Some(now));
        Log(l.(actions := l.actions[id := record]), OfAction(record), r.action.scopeId, Some(id), AttemptFinished,
            Some(now), r.digest)
  }

  function RevokeTx(c: Contracts, l: Ledger, id: string, now: int): Tx {
    match LoadScope(c, l.scopes, id)
    case Err(e) => Tx(l, Err(e))
    case Ok(r) =>
      if r.revokedAt.Some? then Tx(l, Ok(OfScope(r)))
      else
        var record := r.(revokedAt := Some(now));
        Log(l.(scopes := l.scopes[id := record]), OfScope(record), id, None, ScopeRevoked, Some(now), r.digest)
  }

  // ------------------------------------------------------------------ mutate

  function Body(c: Contracts, l: Ledger, call: Call): Tx {
    match call
    case IssueScope(grant, guard, now) => IssueTx(c, l, grant, guard, now)
    case Reserve(action, evidence, guard, now) => ReserveTx(c, l, action, evidence, guard, now)
    case ClaimDispatch(id, digest, guard, now) => ClaimTx(c, l, id, digest, guard, now)
    case Finish(id, outcome, now) => FinishTx(c, l, id, outcome, now)
    case Revoke(id, now) => RevokeTx(c, l, id, now)
  }

  /** The stored owner and clock must be readable before anything happens. */
  function Metadata(c: Contracts, l: Ledger): Option<StoreError> {
    if !c.ownerOk(l.owner) then Some(Validation(Invalid)) else if l.lastSeen < 0 then Some(Corrupt) else None
  }

  /** Record the observed time, then commit the body's changes or roll back to that point. */
  function Mutate(c: Contracts, l: Ledger, call: Call): Tx {
    if Metadata(c, l).Some? then Tx(l, Err(Metadata(c, l).value))
    else if call.now < l.lastSeen then Tx(l, Err(ClockRollback))
    else
      var seen := l.(lastSeen := call.now);
      var tx := Body(c, seen, call);
      if tx.reply.Err? then Tx(seen, tx.reply) else tx
  }

  /** A public call: proposals are put in canonical form and must belong to this owner first. */
  function Apply(c: Contracts, l: Ledger, call: Call): Tx {
    match call
    case IssueScope(grant, guard, now) =>
      (match c.canonGrant(grant)
       case Err(e) => Tx(l, Err(Validation(e)))
       case Ok(g) => if g.owner != l.owner then Tx(l, Err(OwnerMismatch)) else Mutate(c, l, call.(grant := g)))
    case Reserve(action, evidence, guard, now) =>
      (match c.canonAction(action)
       case Err(e) => Tx(l, Err(Validation(e)))
       case Ok(a) => if a.owner != l.owner then Tx(l, Err(OwnerMismatch)) else Mutate(c, l, call.(action := a)))
    case _ => Mutate(c, l, call)
  }

  // ------------------------------------------------------------------ open

  /** A ledger just created for an owner. */
  function Fresh(owner: AuthorityOwner): Ledger {
    Ledger(owner, 0, map[], map[], [])
  }

  /** An unfinished attempt becomes UNKNOWN, at a time recovery cannot know. */
  function Interrupt(l: Ledger, id: string): Tx
    requires id in l.actions
  {
    var r := l.actions[id].(state := Unknown);
    if !Pending(l.actions[id]) then Tx(l, Ok(OfAction(l.actions[id])))
    else Log(l.(actions := l.actions[id := r]), OfAction(r), r.action.scopeId, Some(id), Interrupted, None, r.digest)
  }

  /** Recovery over a listing of actions, left to right; `Err` when the event log is full. */
  ghost function Recover(l: Ledger, ids: seq<string>): (r: Result<Ledger, StoreError>)
    requires forall id :: id in ids ==> id in l.actions
    ensures r.Ok? ==> r.value.actions.Keys == l.actions.Keys
    decreases |ids|
  {
    if ids == [] then Ok(l)
    else
      match Recover(l, ids[..|ids| - 1])
      case Err(e) => Err(e)
      case Ok(m) =>
        var tx := Interrupt(m, ids[|ids| - 1]);
        if tx.reply.Err? then Err(tx.reply.error) else Ok(tx.ledger)
  }

  /** Opening checks the whole ledger, then recovers it in one transaction. */
  ghost function Open(c: Contracts, l: Ledger, owner: AuthorityOwner): Result<Ledger, StoreError> {
    if !c.ownerOk(owner) then Err(Validation(Invalid))
    else if Metadata(c, l).Some? then Err(Metadata(c, l).value)
    else if owner != l.owner then Err(OwnerMismatch)
    else if !Consistent(c, l) then Err(Corrupt)
    else Recover(l, Listing(l.actions.Keys))
  }
}
