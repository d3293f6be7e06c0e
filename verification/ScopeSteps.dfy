/** Each ledger transaction keeps the ledger consistent and only lets it evolve. */
module ScopeSteps {
  import opened Wrappers
  import opened ScopeTypes
  import opened ScopeForest
  import opened ScopeConsistency
  import opened ScopeEvolution
  import opened ScopeLedger

  /** Both halves of what a transaction owes: coherence now, and faithfulness to the past. */
  ghost predicate Kept(c: Contracts, a: Ledger, b: Ledger) {
    Consistent(c, b) && Evolves(a, b)
  }

  // ------------------------------------------------------------------ the clock

  lemma TickTables(c: Contracts, l: Ledger, now: int)
    requires Tables(c, l) && l.lastSeen <= now
    ensures Tables(c, l.(lastSeen := now))
  {
    var m := l.(lastSeen := now);
    forall id | id in m.scopes ensures ScopeRow(m, id) { assert ScopeRow(l, id); }
    forall id | id in m.actions ensures ActionRow(c, m, id) { assert ActionRow(c, l, id); }
  }

  lemma TickHistory(l: Ledger, now: int)
    requires Forest(l.scopes) && History(l) && l.lastSeen <= now
    ensures History(l.(lastSeen := now))
  {
    var m := l.(lastSeen := now);
    forall i | 0 <= i < |m.events| ensures EventRow(m, i) { OldEvent(l, m, i); }
    forall id | id in m.scopes ensures ScopeRecorded(m, id) { assert ScopeRecorded(l, id); }
    forall id | id in m.actions ensures ActionRecorded(m, id) { assert ActionRecorded(l, id); }
  }

  lemma TickCharges(l: Ledger, now: int)
    requires Forest(l.scopes) && Charges(l)
    ensures Charges(l.(lastSeen := now))
  {
    var m := l.(lastSeen := now);
    forall id | id in m.scopes ensures Charged(m, id) {
      assert Charged(l, id);
      assert Under(m, id) == Under(l, id);
      assert Touched(m, id) == Touched(l, id);
    }
  }

  lemma TickEvolves(l: Ledger, now: int)
    requires l.lastSeen <= now
    ensures Evolves(l, l.(lastSeen := now))
  {
  }

  /** Recording a later time changes nothing else that matters. */
  lemma Tick(c: Contracts, l: Ledger, now: int)
    requires Consistent(c, l) && l.lastSeen <= now
    ensures Kept(c, l, l.(lastSeen := now))
  {
    TickTables(c, l, now);
    TickHistory(l, now);
    TickCharges(l, now);
    TickEvolves(l, now);
  }

  // ------------------------------------------------------------------ appending

  /** On a consistent ledger the next sequence is one more than the number of events. */
  lemma NextSequence(l: Ledger)
    requires Forest(l.scopes) && History(l)
    ensures LastSequence(l.events) == |l.events|
  {
    if l.events != [] {
      assert EventRow(l, |l.events| - 1);
    }
  }

  /** A timed event at the observed clock follows every timed event before it. */
  lemma NewPlaced(a: Ledger, b: Ledger, e: AuthorityEvent)
    requires Forest(a.scopes) && History(a) && a.lastSeen >= 0 && b.lastSeen == a.lastSeen
    requires b.events == a.events + [e]
    requires e.sequence == |a.events| + 1 && e.scopeId in b.scopes
    requires e.observedAt.Some? ==> e.observedAt.value == a.lastSeen
    requires !Seen(a.events, |a.events|, Subject(e), e.kind)
    ensures Placed(b, |a.events|)
  {
    var n := |a.events|;
    forall j | 0 <= j < n
      ensures e.observedAt.Some? && b.events[j].observedAt.Some? ==> b.events[j].observedAt.value <= e.observedAt.value
      ensures !(Subject(b.events[j]) == Subject(e) && b.events[j].kind == e.kind)
    {
      assert b.events[j] == a.events[j];
      assert EventRow(a, j);
    }
  }

  lemma SeenNew(events: seq<AuthorityEvent>, e: AuthorityEvent)
    ensures Seen(events + [e], |events| + 1, Subject(e), e.kind)
    ensures forall s, k :: Seen(events + [e], |events| + 1, s, k) <==>
      Seen(events, |events|, s, k) || (s == Subject(e) && k == e.kind)
  {
    var after := events + [e];
    assert after[|events|] == e;
    SeenPrefix(events, after, |events|);
    SeenMore(after, |events|, |events| + 1);
    forall s, k | Seen(after, |events| + 1, s, k)
      ensures Seen(events, |events|, s, k) || (s == Subject(e) && k == e.kind)
    {
      var j :| 0 <= j < |events| + 1 && Subject(after[j]) == s && after[j].kind == k;
      if j < |events| { assert after[j] == events[j]; }
    }
  }

  /** No event speaks of an action that is not in the table yet, nor of a scope that is not. */
  lemma Unheard(l: Ledger, subject: string, kind: EventKind)
    requires Forest(l.scopes) && History(l)
    requires Seen(l.events, |l.events|, subject, kind)
    ensures kind.ScopeIssued? || kind.ScopeRevoked? ==> subject in l.scopes
    ensures !(kind.ScopeIssued? || kind.ScopeRevoked?) ==> subject in l.actions
    ensures kind.ScopeRevoked? ==> l.scopes[subject].revokedAt.Some?
    ensures kind.ClaimRecorded? ==> l.actions[subject].dispatchClaimedAt.Some?
    ensures kind.AttemptFinished? ==> l.actions[subject].finishedAt.Some?
    ensures kind.Interrupted? ==> l.actions[subject].state.Unknown? && l.actions[subject].finishedAt.None?
  {
    var j :| 0 <= j < |l.events| && Subject(l.events[j]) == subject && l.events[j].kind == kind;
    assert EventRow(l, j);
  }

  /** Every unrevoked ancestor in the tables is issued and not revoked in the history. */
  lemma LineAuthorised(l: Ledger, scope: string)
    requires Forest(l.scopes) && History(l) && scope in l.scopes
    requires forall a :: Above(l.scopes, a, scope) ==> l.scopes[a].revokedAt.None?
    ensures forall a :: Above(l.scopes, a, scope) ==>
      Seen(l.events, |l.events|, a, ScopeIssued) && !Seen(l.events, |l.events|, a, ScopeRevoked)
  {
    forall a | Above(l.scopes, a, scope)
      ensures Seen(l.events, |l.events|, a, ScopeIssued) && !Seen(l.events, |l.events|, a, ScopeRevoked)
    {
      assert a in l.scopes && ScopeRecorded(l, a);
      if Seen(l.events, |l.events|, a, ScopeRevoked) {
        Unheard(l, a, ScopeRevoked);
      }
    }
  }

  // ------------------------------------------------------------------ rows that were there before

  lemma OpenKept(p: ScopeRecord, q: ScopeRecord, t: int, since: int)
    requires ScopeKept(p, q, since) && OpenAt(p, t) && t <= since
    ensures OpenAt(q, t)
  {
  }

  lemma OldScope(c: Contracts, a: Ledger, b: Ledger, id: string)
    requires Tables(c, a) && Forest(b.scopes) && Evolves(a, b) && b.lastSeen == a.lastSeen
    requires id in a.scopes
    requires b.scopes[id].revokedAt.Some? ==> b.scopes[id].revokedAt.value <= b.lastSeen
    ensures ScopeTimes(b, id)
  {
    assert ScopeRow(a, id);
    LinesStable(a.scopes, b.scopes);
    forall x | Above(b.scopes, x, id) && x != id ensures CouldDelegate(b.scopes[x], b.scopes[id].issuedAt) {
      assert Above(a.scopes, x, id);
      OpenKept(a.scopes[x], b.scopes[x], a.scopes[id].issuedAt, a.lastSeen);
    }
  }

  lemma OldLineOpen(a: Ledger, b: Ledger, scope: string, t: int)
    requires Forest(a.scopes) && Forest(b.scopes) && Evolves(a, b) && scope in a.scopes
    requires LineOpenAt(a.scopes, scope, t) && t <= a.lastSeen
    ensures LineOpenAt(b.scopes, scope, t)
  {
    LinesStable(a.scopes, b.scopes);
    forall x | Above(b.scopes, x, scope) ensures OpenAt(b.scopes[x], t) {
      OpenKept(a.scopes[x], b.scopes[x], t, a.lastSeen);
    }
  }

  lemma OldAction(c: Contracts, a: Ledger, b: Ledger, id: string)
    requires Tables(c, a) && Forest(b.scopes) && Evolves(a, b) && b.lastSeen == a.lastSeen
    requires id in a.actions && b.actions[id] == a.actions[id]
    ensures ActionRow(c, b, id)
  {
    assert ActionRow(c, a, id);
    var r := a.actions[id];
    OldLineOpen(a, b, r.action.scopeId, r.reservedAt);
    if r.dispatchClaimedAt.Some? {
      OldLineOpen(a, b, r.action.scopeId, r.dispatchClaimedAt.value);
    }
  }

  /** Charges are unmoved when no action is added and ancestry is unchanged. */
  lemma ActionScopes(c: Contracts, l: Ledger)
    requires Tables(c, l)
    ensures forall x :: x in l.actions ==> l.actions[x].action.scopeId in l.scopes
  {
    forall x | x in l.actions ensures l.actions[x].action.scopeId in l.scopes { assert ActionRow(c, l, x); }
  }

  lemma SameUnder(a: Ledger, b: Ledger, id: string)
    requires Forest(a.scopes) && Forest(b.scopes) && SameGrants(a.scopes, b.scopes)
    requires a.actions.Keys == b.actions.Keys && id in a.scopes
    requires forall x :: x in a.actions ==>
      a.actions[x].action.scopeId in a.scopes && b.actions[x].action == a.actions[x].action
    ensures Under(b, id) == Under(a, id) && Touched(b, id) == Touched(a, id)
  {
    LinesStable(a.scopes, b.scopes);
    assert Under(b, id) == Under(a, id);
  }

  // ------------------------------------------------------------------ claim, finish, interrupt

  /** One action row moves on and one event about it is appended. */
  function Moved(a: Ledger, id: string, r: ActionRecord, kind: EventKind, at: Option<int>): Ledger {
    a.(actions := a.actions[id := r],
       events := a.events + [AuthorityEvent(|a.events| + 1, r.action.scopeId, Some(id), kind, at, r.digest)])
  }

  lemma MovedEvolves(a: Ledger, id: string, r: ActionRecord, kind: EventKind, at: Option<int>)
    requires id in a.actions && ActionKept(a.actions[id], r, a.lastSeen)
    requires at.Some? ==> at.value == a.lastSeen
    ensures Evolves(a, Moved(a, id, r, kind, at))
  {
  }

  lemma MovedTables(c: Contracts, a: Ledger, id: string, r: ActionRecord, kind: EventKind, at: Option<int>)
    requires Tables(c, a) && id in a.actions && ActionKept(a.actions[id], r, a.lastSeen)
    requires at.Some? ==> at.value == a.lastSeen
    requires ActionRow(c, Moved(a, id, r, kind, at), id)
    ensures Tables(c, Moved(a, id, r, kind, at))
  {
    var b := Moved(a, id, r, kind, at);
    MovedEvolves(a, id, r, kind, at);
    forall x | x in b.actions ensures ActionRow(c, b, x) {
      if x != id { OldAction(c, a, b, x); }
    }
    forall s | s in b.scopes ensures ScopeRow(b, s) {
      assert ScopeRow(a, s);
      OldScope(c, a, b, s);
    }
    MovedKeyed(a, id, r, kind, at);
  }

  lemma MovedKeyed(a: Ledger, id: string, r: ActionRecord, kind: EventKind, at: Option<int>)
    requires Keyed(a) && id in a.actions && r.action == a.actions[id].action
    ensures Keyed(Moved(a, id, r, kind, at))
  {
    var b := Moved(a, id, r, kind, at);
    assert forall x :: x in b.actions ==> b.actions[x].action == a.actions[x].action;
  }

  /** Charges survive any step that leaves actions, grants and counters alone. */
  lemma ChargesSame(a: Ledger, b: Ledger)
    requires Forest(a.scopes) && Forest(b.scopes) && SameGrants(a.scopes, b.scopes) && b.scopes.Keys == a.scopes.Keys
      && Charges(a)
    requires b.actions.Keys == a.actions.Keys
      && forall x :: x in a.actions ==> b.actions[x].action == a.actions[x].action
    requires forall x :: x in a.actions ==> a.actions[x].action.scopeId in a.scopes
    requires forall s :: s in a.scopes ==>
      b.scopes[s].chargedAttempts == a.scopes[s].chargedAttempts
        && b.scopes[s].chargedResources == a.scopes[s].chargedResources
    ensures Charges(b)
  {
    forall s | s in b.scopes ensures Charged(b, s) {
      assert Charged(a, s);
      SameUnder(a, b, s);
    }
  }

  lemma MovedCharges(c: Contracts, a: Ledger, id: string, r: ActionRecord, kind: EventKind, at: Option<int>)
    requires Tables(c, a) && Charges(a) && id in a.actions && r.action == a.actions[id].action
    ensures Charges(Moved(a, id, r, kind, at))
  {
    var b := Moved(a, id, r, kind, at);
    ActionScopes(c, a);
    ChargesSame(a, b);
  }

  /** What the appended event and the moved row say of each other. */
  ghost predicate MoveRecorded(p: ActionRecord, r: ActionRecord, kind: EventKind, at: Option<int>) {
    && Pending(p) && StateFits(p) && StateFits(r)
    && match kind
       case ClaimRecorded => p.state.Reserved? && r == p.(state := DispatchClaimed, dispatchClaimedAt := at) && at.Some?
       case AttemptFinished => r == p.(state := r.state, finishedAt := at) && at.Some? && !Pending(r)
       case Interrupted => r == p.(state := Unknown) && at.None?
       case _ => false
  }

  lemma MovedAuthorised(a: Ledger, id: string, r: ActionRecord, kind: EventKind, at: Option<int>)
    requires Forest(a.scopes) && History(a) && r.action.scopeId in a.scopes
    requires Admitting(kind) ==> forall x :: Above(a.scopes, x, r.action.scopeId) ==> a.scopes[x].revokedAt.None?
    requires !kind.ScopeRevoked?
    ensures Authorised(Moved(a, id, r, kind, at), |a.events|)
  {
    var e := Moved(a, id, r, kind, at).events[|a.events|];
    assert ScopeRecorded(a, r.action.scopeId);
    SeenNew(a.events, e);
    if Admitting(kind) { LineAuthorised(a, r.action.scopeId); }
  }

  lemma MovedRecorded(a: Ledger, id: string, r: ActionRecord, kind: EventKind, at: Option<int>)
    requires id in a.actions && ActionRecorded(a, id)
    requires MoveRecorded(a.actions[id], r, kind, at) && ActionKept(a.actions[id], r, a.lastSeen)
    requires r.action.actionId == id
    ensures ActionRecorded(Moved(a, id, r, kind, at), id)
    ensures ActionEvent(Moved(a, id, r, kind, at), Moved(a, id, r, kind, at).events[|a.events|])
    ensures LifecycleOrder(Moved(a, id, r, kind, at), |a.events|)
  {
    SeenNew(a.events, Moved(a, id, r, kind, at).events[|a.events|]);
  }

  lemma MovedNew(c: Contracts, a: Ledger, id: string, r: ActionRecord, kind: EventKind, at: Option<int>)
    requires Tables(c, a) && History(a) && id in a.actions
    requires MoveRecorded(a.actions[id], r, kind, at) && ActionKept(a.actions[id], r, a.lastSeen)
    requires at.Some? ==> at.value == a.lastSeen
    requires kind.ClaimRecorded? ==> forall x :: Above(a.scopes, x, r.action.scopeId) ==> a.scopes[x].revokedAt.None?
    ensures EventRow(Moved(a, id, r, kind, at), |a.events|)
    ensures ActionRecorded(Moved(a, id, r, kind, at), id)
  {
    var b := Moved(a, id, r, kind, at);
    assert ActionRow(c, a, id) && ActionRecorded(a, id);
    if Seen(a.events, |a.events|, id, kind) { Unheard(a, id, kind); }
    NewPlaced(a, b, b.events[|a.events|]);
    MovedAuthorised(a, id, r, kind, at);
    MovedRecorded(a, id, r, kind, at);
  }

  lemma MovedHistory(a: Ledger, id: string, r: ActionRecord, kind: EventKind, at: Option<int>)
    requires Forest(a.scopes) && History(a) && id in a.actions && ActionKept(a.actions[id], r, a.lastSeen)
    requires at.Some? ==> at.value == a.lastSeen
    requires EventRow(Moved(a, id, r, kind, at), |a.events|) && ActionRecorded(Moved(a, id, r, kind, at), id)
    ensures History(Moved(a, id, r, kind, at))
  {
    MovedEvolves(a, id, r, kind, at);
    HistoryGrows(a, Moved(a, id, r, kind, at));
  }

  /** A pending attempt moves on under the rules of its event, and the ledger stays consistent. */
  lemma MovedKept(c: Contracts, a: Ledger, id: string, r: ActionRecord, kind: EventKind, at: Option<int>)
    requires Consistent(c, a) && id in a.actions
    requires MoveRecorded(a.actions[id], r, kind, at)
    requires at.Some? ==> at.value == a.lastSeen
    requires kind.ClaimRecorded? ==>
      && (forall x :: Above(a.scopes, x, r.action.scopeId) ==> Active(a.scopes[x], a.lastSeen))
      && c.admits(r.evidence, a.scopes[r.action.scopeId].grant, r.action, a.lastSeen).None?
      && a.lastSeen < r.evidence.expiresAt
    ensures Kept(c, a, Moved(a, id, r, kind, at))
  {
    assert ActionRow(c, a, id);
    MovedRow(c, a, id, r, kind, at);
    MovedTables(c, a, id, r, kind, at);
    MovedCharges(c, a, id, r, kind, at);
    MovedNew(c, a, id, r, kind, at);
    MovedHistory(a, id, r, kind, at);
    MovedEvolves(a, id, r, kind, at);
  }

  lemma MovedRow(c: Contracts, a: Ledger, id: string, r: ActionRecord, kind: EventKind, at: Option<int>)
    requires Forest(a.scopes) && id in a.actions && ActionRow(c, a, id)
    requires MoveRecorded(a.actions[id], r, kind, at)
    requires at.Some? ==> at.value == a.lastSeen
    requires kind.ClaimRecorded? ==>
      && (forall x :: Above(a.scopes, x, r.action.scopeId) ==> Active(a.scopes[x], a.lastSeen))
      && c.admits(r.evidence, a.scopes[r.action.scopeId].grant, r.action, a.lastSeen).None?
      && a.lastSeen < r.evidence.expiresAt
    ensures ActionRow(c, Moved(a, id, r, kind, at), id)
    ensures ActionKept(a.actions[id], r, a.lastSeen)
  {
  }
}
