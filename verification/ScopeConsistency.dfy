/**
 * What a coherent ledger is, stated over whole tables: rows, ancestry, charges and event history.
 * It is the declarative reading of `ScopeEvidence::validate`.
 */
module ScopeConsistency {
  import opened Wrappers
  import opened ScopeTypes
  import opened ScopeForest

  // ------------------------------------------------------------------ scopes

  /** An ancestor existed, was inside its window, and was not yet revoked when a child was issued at `t`. */
  ghost predicate CouldDelegate(p: ScopeRecord, t: int) {
    p.issuedAt <= t && OpenAt(p, t)
  }

  ghost predicate OpenAt(p: ScopeRecord, t: int) {
    p.grant.notBefore <= t < p.grant.expiresAt && (p.revokedAt.Some? ==> t <= p.revokedAt.value)
  }

  ghost predicate InBudget(r: ScopeRecord) {
    r.chargedAttempts <= r.grant.maxChargedAttempts && |r.chargedResources| <= r.grant.maxDistinctResources
  }

  ghost predicate ScopeRow(l: Ledger, id: string)
    requires Forest(l.scopes) && id in l.scopes
  {
    ScopeTimes(l, id) && InBudget(l.scopes[id])
  }

  ghost predicate ScopeTimes(l: Ledger, id: string)
    requires Forest(l.scopes) && id in l.scopes
  {
    var r := l.scopes[id];
    && r.grant.owner == l.owner
    && 0 <= r.issuedAt <= l.lastSeen
    && r.issuedAt < r.grant.expiresAt
    && (r.revokedAt.Some? ==> r.issuedAt <= r.revokedAt.value <= l.lastSeen)
    && (forall a :: Above(l.scopes, a, id) && a != id ==> CouldDelegate(l.scopes[a], r.issuedAt))
  }

  // ------------------------------------------------------------------ actions

  ghost predicate StateFits(r: ActionRecord) {
    match r.state
    case Reserved => r.dispatchClaimedAt.None? && r.finishedAt.None?
    case DispatchClaimed => r.dispatchClaimedAt.Some? && r.finishedAt.None?
    case ApiAccepted => r.dispatchClaimedAt.Some? && r.finishedAt.Some?
    case Rejected => r.finishedAt.Some?
    case Unknown => true
  }

  predicate Pending(r: ActionRecord) {
    r.state.Reserved? || r.state.DispatchClaimed?
  }

  ghost predicate LineOpenAt(scopes: Scopes, id: string, t: int)
    requires Forest(scopes)
  {
    forall a :: Above(scopes, a, id) ==> OpenAt(scopes[a], t)
  }

  ghost predicate ClaimTime(c: Contracts, l: Ledger, r: ActionRecord, at: int)
    requires Forest(l.scopes) && r.action.scopeId in l.scopes
  {
    && c.admits(r.evidence, l.scopes[r.action.scopeId].grant, r.action, at).None?
    && r.reservedAt <= at <= l.lastSeen
    && at < r.evidence.expiresAt
    && LineOpenAt(l.scopes, r.action.scopeId, at)
  }

  ghost predicate ActionRow(c: Contracts, l: Ledger, id: string)
    requires Forest(l.scopes) && id in l.actions
  {
    var r := l.actions[id];
    && r.action.actionId == id
    && c.canonAction(r.action) == Ok(r.action)
    && r.digest == c.actionDigest(r.action)
    && r.action.owner == l.owner
    && r.action.scopeId in l.scopes
    && c.admits(r.evidence, l.scopes[r.action.scopeId].grant, r.action, r.reservedAt).None?
    && l.scopes[r.action.scopeId].issuedAt <= r.reservedAt <= l.lastSeen
    && LineOpenAt(l.scopes, r.action.scopeId, r.reservedAt)
    && (r.dispatchClaimedAt.Some? ==> ClaimTime(c, l, r, r.dispatchClaimedAt.value))
    && (r.finishedAt.Some? ==>
          && (if r.dispatchClaimedAt.Some? then r.dispatchClaimedAt.value else r.reservedAt) <= r.finishedAt.value
          && r.finishedAt.value <= l.lastSeen)
    && StateFits(r)
  }

  predicate SameRequest(a: PreparedAction, b: PreparedAction) {
    a.scopeId == b.scopeId && a.subject == b.subject && a.requestId == b.requestId
  }

  /** The keys SQLite enforces: rows are stored under their own ids, and a request names one action. */
  ghost predicate Keyed(l: Ledger) {
    && (forall id :: id in l.scopes ==> l.scopes[id].grant.scopeId == id)
    && (forall id :: id in l.actions ==> l.actions[id].action.actionId == id)
    && (forall a, b :: a in l.actions && b in l.actions && SameRequest(l.actions[a].action, l.actions[b].action) ==>
        a == b)
  }

  // ------------------------------------------------------------------ charges

  /** The actions charged to a scope: those proposed under it or under any of its descendants. */
  ghost function Under(l: Ledger, scope: string): set<string>
    requires Forest(l.scopes)
  {
    set a | a in l.actions && Above(l.scopes, scope, l.actions[a].action.scopeId)
  }

  ghost function Touched(l: Ledger, scope: string): set<string>
    requires Forest(l.scopes)
  {
    set a | a in Under(l, scope) :: l.actions[a].action.resource
  }

  ghost predicate Charged(l: Ledger, id: string)
    requires Forest(l.scopes) && id in l.scopes
  {
    l.scopes[id].chargedAttempts == |Under(l, id)| && l.scopes[id].chargedResources == Touched(l, id)
  }

  // ------------------------------------------------------------------ events

  /** Event history is keyed by the action when there is one, by the scope otherwise. */
  function Subject(e: AuthorityEvent): string {
    if e.actionId.Some? then e.actionId.value else e.scopeId
  }

  ghost predicate Seen(events: seq<AuthorityEvent>, n: nat, subject: string, kind: EventKind)
    requires n <= |events|
  {
    exists j :: 0 <= j < n && Subject(events[j]) == subject && events[j].kind == kind
  }

  ghost predicate Placed(l: Ledger, i: nat)
    requires i < |l.events|
  {
    var e := l.events[i];
    && e.sequence == i + 1
    && e.scopeId in l.scopes
    && (e.observedAt.Some? ==> 0 <= e.observedAt.value <= l.lastSeen)
    && (forall j :: 0 <= j < i && e.observedAt.Some? && l.events[j].observedAt.Some? ==>
          l.events[j].observedAt.value <= e.observedAt.value)
    && (forall j :: 0 <= j < i ==> !(Subject(l.events[j]) == Subject(e) && l.events[j].kind == e.kind))
  }

  ghost predicate Admitting(kind: EventKind) {
    kind.ScopeIssued? || kind.AttemptCharged? || kind.ClaimRecorded?
  }

  /** Every event names an issued scope; admissions also need every ancestor issued and unrevoked. */
  ghost predicate Authorised(l: Ledger, i: nat)
    requires Forest(l.scopes) && i < |l.events|
  {
    var e := l.events[i];
    && Seen(l.events, i + 1, e.scopeId, ScopeIssued)
    && (Admitting(e.kind) ==> forall a :: Above(l.scopes, a, e.scopeId) ==>
          && Seen(l.events, i + 1, a, ScopeIssued)
          && !Seen(l.events, i + 1, a, ScopeRevoked))
  }

  ghost predicate ScopeEvent(l: Ledger, e: AuthorityEvent)
    requires e.scopeId in l.scopes
  {
    var r := l.scopes[e.scopeId];
    && e.contentDigest == r.digest
    && ((e.kind.ScopeIssued? && e.observedAt == Some(r.issuedAt))
        || (e.kind.ScopeRevoked? && r.revokedAt.Some? && e.observedAt == r.revokedAt))
  }

  ghost predicate ActionEvent(l: Ledger, e: AuthorityEvent)
    requires e.actionId.Some?
  {
    && e.actionId.value in l.actions
    && var r := l.actions[e.actionId.value];
    && e.scopeId == r.action.scopeId
    && e.contentDigest == r.digest
    && ((e.kind.AttemptCharged? && e.observedAt == Some(r.reservedAt))
        || (e.kind.ClaimRecorded? && r.dispatchClaimedAt.Some? && e.observedAt == r.dispatchClaimedAt)
        || (e.kind.AttemptFinished? && r.finishedAt.Some? && e.observedAt == r.finishedAt)
        || (e.kind.Interrupted? && e.observedAt.None? && r.state.Unknown? && r.finishedAt.None?))
  }

  /** An attempt is charged first, and claimed before any end recorded for a claimed attempt. */
  ghost predicate LifecycleOrder(l: Ledger, i: nat)
    requires i < |l.events| && l.events[i].actionId.Some? && l.events[i].actionId.value in l.actions
  {
    var e := l.events[i];
    && Seen(l.events, i + 1, e.actionId.value, AttemptCharged)
    && ((e.kind.AttemptFinished? || e.kind.Interrupted?) && l.actions[e.actionId.value].dispatchClaimedAt.Some? ==>
          Seen(l.events, i + 1, e.actionId.value, ClaimRecorded))
  }

  ghost predicate EventRow(l: Ledger, i: nat)
    requires Forest(l.scopes) && i < |l.events|
  {
    && Placed(l, i)
    && Authorised(l, i)
    && (if l.events[i].actionId.Some? then ActionEvent(l, l.events[i]) && LifecycleOrder(l, i)
        else ScopeEvent(l, l.events[i]))
  }

  ghost predicate ScopeRecorded(l: Ledger, id: string)
    requires id in l.scopes
  {
    && Seen(l.events, |l.events|, id, ScopeIssued)
    && (l.scopes[id].revokedAt.Some? ==> Seen(l.events, |l.events|, id, ScopeRevoked))
  }

  ghost predicate ActionRecorded(l: Ledger, id: string)
    requires id in l.actions
  {
    var r := l.actions[id];
    && Seen(l.events, |l.events|, id, AttemptCharged)
    && (r.dispatchClaimedAt.Some? ==> Seen(l.events, |l.events|, id, ClaimRecorded))
    && (r.finishedAt.Some? ==> Seen(l.events, |l.events|, id, AttemptFinished))
    && (r.state.Unknown? && r.finishedAt.None? ==> Seen(l.events, |l.events|, id, Interrupted))
  }

  // ------------------------------------------------------------------ the whole ledger

  ghost predicate Tables(c: Contracts, l: Ledger) {
    && l.lastSeen >= 0
    && c.ownerOk(l.owner)
    && Keyed(l)
    && SoundScopes(c, l.scopes)
    && Forest(l.scopes)
    && (forall id :: id in l.scopes ==> ScopeRow(l, id))
    && (forall id :: id in l.actions ==> ActionRow(c, l, id))
  }

  ghost predicate Charges(l: Ledger)
    requires Forest(l.scopes)
  {
    forall id :: id in l.scopes ==> Charged(l, id)
  }

  ghost predicate History(l: Ledger)
    requires Forest(l.scopes)
  {
    && (forall i :: 0 <= i < |l.events| ==> EventRow(l, i))
    && (forall id :: id in l.scopes ==> ScopeRecorded(l, id))
    && (forall id :: id in l.actions ==> ActionRecorded(l, id))
  }

  ghost predicate Consistent(c: Contracts, l: Ledger) {
    Tables(c, l) && Charges(l) && History(l)
  }
}
