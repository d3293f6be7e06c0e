/** The validator's single pass over the event log decides exactly `History`. */
module ScopeEventCheck {
  import opened Wrappers
  import opened ScopeTypes
  import opened ScopeForest
  import opened ScopeConsistency

  type SeenKeys = set<(string, EventKind)>

  /** The pass remembers the (subject, kind) pairs of the events it has read. */
  ghost predicate Noted(events: seq<AuthorityEvent>, n: nat, seen: SeenKeys)
    requires n <= |events|
  {
    forall s, k :: (s, k) in seen <==> Seen(events, n, s, k)
  }

  /** The last time observed by the first `n` events, or zero. */
  ghost function LastTime(events: seq<AuthorityEvent>, n: nat): int
    requires n <= |events|
  {
    if n == 0 then 0
    else if events[n - 1].observedAt.Some? then events[n - 1].observedAt.value
    else LastTime(events, n - 1)
  }

  ghost predicate AllPlaced(l: Ledger, n: nat)
    requires n <= |l.events|
  {
    forall j :: 0 <= j < n ==> Placed(l, j)
  }

  lemma {:induction false} LastTimeIsLatest(l: Ledger, n: nat)
    requires n <= |l.events| && AllPlaced(l, n)
    ensures 0 <= LastTime(l.events, n)
    ensures forall j :: 0 <= j < n && l.events[j].observedAt.Some? ==>
      l.events[j].observedAt.value <= LastTime(l.events, n)
    ensures LastTime(l.events, n) == 0
      || exists j :: 0 <= j < n && l.events[j].observedAt == Some(LastTime(l.events, n))
  {
    if n > 0 {
      LastTimeIsLatest(l, n - 1);
      assert Placed(l, n - 1);
    }
  }

  lemma NotedNext(events: seq<AuthorityEvent>, n: nat, seen: SeenKeys)
    requires n < |events| && Noted(events, n, seen)
    ensures Noted(events, n + 1, seen + {(Subject(events[n]), events[n].kind)})
  {
    forall s, k
      ensures Seen(events, n + 1, s, k) <==> Seen(events, n, s, k) || (s == Subject(events[n]) && k == events[n].kind)
    {
    }
  }

  /** Position, scope, time and uniqueness of one event. */
  method CheckPlace(l: Ledger, i: nat, seen: SeenKeys, previous: int) returns (ok: bool)
    requires i < |l.events| && AllPlaced(l, i) && Noted(l.events, i, seen) && previous == LastTime(l.events, i)
    ensures ok <==> Placed(l, i)
  {
    var e := l.events[i];
    LastTimeIsLatest(l, i);
    if e.scopeId !in l.scopes { return false; }
    if e.sequence != i + 1 { return false; }
    if e.observedAt.Some? && (e.observedAt.value < previous || e.observedAt.value > l.lastSeen) { return false; }
    if (Subject(e), e.kind) in seen {
      assert Seen(l.events, i, Subject(e), e.kind);
      return false;
    }
    assert !Seen(l.events, i, Subject(e), e.kind);
    return true;
  }

  ghost predicate Permits(events: seq<AuthorityEvent>, n: nat, a: string)
    requires n <= |events|
  {
    Seen(events, n, a, ScopeIssued) && !Seen(events, n, a, ScopeRevoked)
  }

  ghost predicate LinePermits(l: Ledger, n: nat, id: string)
    requires Forest(l.scopes) && n <= |l.events|
  {
    forall a :: Above(l.scopes, a, id) ==> Permits(l.events, n, a)
  }

  lemma LinePermitsStep(l: Ledger, n: nat, id: string)
    requires Forest(l.scopes) && n <= |l.events| && id in l.scopes
    ensures LinePermits(l, n, id) <==>
      Permits(l.events, n, id)
        && (l.scopes[id].grant.parentId.Some? ==> LinePermits(l, n, l.scopes[id].grant.parentId.value))
  {
    AboveSelf(l.scopes, id);
    if l.scopes[id].grant.parentId.Some? {
      LineParent(l.scopes, id);
    } else {
      assert forall a :: Above(l.scopes, a, id) ==> a == id;
    }
  }

  /** Admissions need every ancestor issued and not yet revoked, by the order of the log alone. */
  method CheckAuthority(l: Ledger, i: nat, seen: SeenKeys) returns (ok: bool)
    requires Forest(l.scopes) && i < |l.events| && l.events[i].scopeId in l.scopes && Noted(l.events, i + 1, seen)
    ensures ok <==> Authorised(l, i)
  {
    var e := l.events[i];
    if (e.scopeId, ScopeIssued) !in seen { return false; }
    if e.kind != ScopeIssued && e.kind != AttemptCharged && e.kind != ClaimRecorded { return true; }
    var current := Some(e.scopeId);
    while current.Some?
      invariant current.Some? ==> current.value in l.scopes
      invariant LinePermits(l, i + 1, e.scopeId) <==> (current.Some? ==> LinePermits(l, i + 1, current.value))
      decreases if current.Some? then 1 + MAX_DEPTH - l.scopes[current.value].grant.delegationsRemaining else 0
    {
      LinePermitsStep(l, i + 1, current.value);
      if (current.value, ScopeRevoked) in seen || (current.value, ScopeIssued) !in seen {
        assert !LinePermits(l, i + 1, e.scopeId);
        return false;
      }
      current := l.scopes[current.value].grant.parentId;
    }
    assert LinePermits(l, i + 1, e.scopeId);
    return true;
  }

  ghost predicate Contents(l: Ledger, i: nat)
    requires i < |l.events| && l.events[i].scopeId in l.scopes
  {
    if l.events[i].actionId.Some? then ActionEvent(l, l.events[i]) && LifecycleOrder(l, i)
    else ScopeEvent(l, l.events[i])
  }

  predicate ActionStamp(r: ActionRecord, e: AuthorityEvent) {
    match e.kind
    case AttemptCharged => e.observedAt == Some(r.reservedAt)
    case ClaimRecorded => e.observedAt == r.dispatchClaimedAt && r.dispatchClaimedAt.Some?
    case AttemptFinished => e.observedAt == r.finishedAt && r.finishedAt.Some?
    case Interrupted => e.observedAt.None? && r.state.Unknown? && r.finishedAt.None?
    case _ => false
  }

  predicate ScopeStamp(r: ScopeRecord, e: AuthorityEvent) {
    match e.kind
    case ScopeIssued => e.observedAt == Some(r.issuedAt)
    case ScopeRevoked => e.observedAt == r.revokedAt && r.revokedAt.Some?
    case _ => false
  }

  /** Times and digests must be those of the row, and an attempt's events follow its charge and claim. */
  method CheckContents(l: Ledger, i: nat, seen: SeenKeys) returns (ok: bool)
    requires i < |l.events| && l.events[i].scopeId in l.scopes && Noted(l.events, i + 1, seen)
    ensures ok <==> Contents(l, i)
  {
    var e := l.events[i];
    match e.actionId {
      case None =>
        ok := e.contentDigest == l.scopes[e.scopeId].digest && ScopeStamp(l.scopes[e.scopeId], e);
      case Some(id) =>
        if id !in l.actions { return false; }
        var r := l.actions[id];
        if e.scopeId != r.action.scopeId || e.contentDigest != r.digest { return false; }
        if !ActionStamp(r, e) { return false; }
        if (id, AttemptCharged) !in seen {
          assert !Seen(l.events, i + 1, id, AttemptCharged);
          return false;
        }
        if (e.kind.AttemptFinished? || e.kind.Interrupted?) && r.dispatchClaimedAt.Some?
          && (id, ClaimRecorded) !in seen {
          assert !Seen(l.events, i + 1, id, ClaimRecorded);
          return false;
        }
        ok := true;
    }
  }

  lemma EventRowParts(l: Ledger, i: nat)
    requires Forest(l.scopes) && i < |l.events|
    ensures EventRow(l, i) <==> Placed(l, i) && Authorised(l, i) && Contents(l, i)
  {
  }

  ghost predicate FirstEvents(l: Ledger, n: nat)
    requires Forest(l.scopes) && n <= |l.events|
  {
    n == 0 || (FirstEvents(l, n - 1) && EventRow(l, n - 1))
  }

  lemma {:induction false} FirstEventsRows(l: Ledger, n: nat)
    requires Forest(l.scopes) && n <= |l.events|
    ensures FirstEvents(l, n) <==> forall i :: 0 <= i < n ==> EventRow(l, i)
  {
    if n > 0 { FirstEventsRows(l, n - 1); }
  }

  lemma FirstPlaced(l: Ledger, n: nat)
    requires Forest(l.scopes) && n <= |l.events| && FirstEvents(l, n)
    ensures AllPlaced(l, n)
  {
    FirstEventsRows(l, n);
  }

  method CheckEvent(l: Ledger, i: nat, seen: SeenKeys, previous: int) returns (ok: bool)
    requires Forest(l.scopes) && i < |l.events| && AllPlaced(l, i)
    requires Noted(l.events, i, seen) && previous == LastTime(l.events, i)
    ensures ok <==> EventRow(l, i)
  {
    EventRowParts(l, i);
    ok := CheckPlace(l, i, seen, previous);
    if ok {
      var after := seen + {(Subject(l.events[i]), l.events[i].kind)};
      NotedNext(l.events, i, seen);
      ok := CheckAuthority(l, i, after);
      if ok { ok := CheckContents(l, i, after); }
    }
  }

  /** The pass over the log. */
  method CheckEvents(l: Ledger) returns (ok: bool, seen: SeenKeys)
    requires Forest(l.scopes)
    ensures ok <==> FirstEvents(l, |l.events|)
    ensures ok ==> Noted(l.events, |l.events|, seen)
  {
    seen := {};
    var previous := 0;
    ghost var total := |l.events|;
    for i := 0 to |l.events|
      invariant FirstEvents(l, i)
      invariant Noted(l.events, i, seen)
      invariant previous == LastTime(l.events, i)
    {
      FirstPlaced(l, i);
      var fine := CheckEvent(l, i, seen, previous);
      if !fine {
        FirstEventsRows(l, total);
        return false, seen;
      }
      NotedNext(l.events, i, seen);
      seen := seen + {(Subject(l.events[i]), l.events[i].kind)};
      if l.events[i].observedAt.Some? { previous := l.events[i].observedAt.value; }
    }
    return true, seen;
  }

  predicate ScopeNoted(seen: SeenKeys, id: string, r: ScopeRecord) {
    (id, ScopeIssued) in seen && (r.revokedAt.Some? ==> (id, ScopeRevoked) in seen)
  }

  predicate ActionNoted(seen: SeenKeys, id: string, r: ActionRecord) {
    && (id, AttemptCharged) in seen
    && (r.dispatchClaimedAt.Some? ==> (id, ClaimRecorded) in seen)
    && (r.finishedAt.Some? ==> (id, AttemptFinished) in seen)
    && (r.state.Unknown? && r.finishedAt.None? ==> (id, Interrupted) in seen)
  }

  lemma NotedScopes(l: Ledger, seen: SeenKeys)
    requires Noted(l.events, |l.events|, seen)
    ensures forall id :: id in l.scopes ==> (ScopeNoted(seen, id, l.scopes[id]) <==> ScopeRecorded(l, id))
  {
  }

  lemma NotedActions(l: Ledger, seen: SeenKeys)
    requires Noted(l.events, |l.events|, seen)
    ensures forall id :: id in l.actions ==> (ActionNoted(seen, id, l.actions[id]) <==> ActionRecorded(l, id))
  {
  }

  /** Every row must have left its events: the log is complete as well as correct. */
  method VerifyEvents(l: Ledger) returns (ok: bool)
    requires Forest(l.scopes)
    ensures ok <==> History(l)
  {
    var passed, seen := CheckEvents(l);
    FirstEventsRows(l, |l.events|);
    if !passed { return false; }
    NotedScopes(l, seen);
    NotedActions(l, seen);
    ok := (forall id :: id in l.scopes ==> ScopeNoted(seen, id, l.scopes[id]))
       && (forall id :: id in l.actions ==> ActionNoted(seen, id, l.actions[id]));
  }
}
