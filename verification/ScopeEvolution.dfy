/** How a ledger may change: tables grow, settled facts stay, and history is only appended to. */
module ScopeEvolution {
  import opened ScopeTypes
  import opened ScopeForest
  import opened ScopeConsistency

  ghost predicate ScopeKept(old_: ScopeRecord, new_: ScopeRecord, since: int) {
    && new_.grant == old_.grant && new_.digest == old_.digest && new_.issuedAt == old_.issuedAt
    && (old_.revokedAt.Some? ==> new_.revokedAt == old_.revokedAt)
    && (old_.revokedAt.None? && new_.revokedAt.Some? ==> since <= new_.revokedAt.value)
    && old_.chargedAttempts <= new_.chargedAttempts && old_.chargedResources <= new_.chargedResources
  }

  ghost predicate ActionKept(old_: ActionRecord, new_: ActionRecord, since: int) {
    && new_.action == old_.action && new_.digest == old_.digest
    && new_.evidence == old_.evidence && new_.reservedAt == old_.reservedAt
    && (old_.dispatchClaimedAt.Some? ==> new_.dispatchClaimedAt == old_.dispatchClaimedAt)
    && (old_.dispatchClaimedAt.None? && new_.dispatchClaimedAt.Some? ==> since <= new_.dispatchClaimedAt.value)
    && (old_.state.DispatchClaimed? ==> !new_.state.Reserved?)
    && (!Pending(old_) || old_.finishedAt.Some? ==> new_ == old_)
  }

  /** Everything a later ledger owes to an earlier one. */
  ghost predicate Evolves(a: Ledger, b: Ledger) {
    && b.owner == a.owner
    && a.lastSeen <= b.lastSeen
    && a.events <= b.events
    && (forall i :: |a.events| <= i < |b.events| && b.events[i].observedAt.Some? ==>
        a.lastSeen <= b.events[i].observedAt.value)
    && (forall id :: id in a.scopes ==> id in b.scopes && ScopeKept(a.scopes[id], b.scopes[id], a.lastSeen))
    && (forall id :: id in a.actions ==> id in b.actions && ActionKept(a.actions[id], b.actions[id], a.lastSeen))
  }

  lemma EvolvesTransitive(a: Ledger, b: Ledger, c: Ledger)
    requires Evolves(a, b) && Evolves(b, c)
    ensures Evolves(a, c)
  {
    forall i | |a.events| <= i < |c.events| && c.events[i].observedAt.Some?
      ensures a.lastSeen <= c.events[i].observedAt.value
    {
      if i < |b.events| { assert c.events[i] == b.events[i]; }
    }
  }

  lemma SeenPrefix(before: seq<AuthorityEvent>, after: seq<AuthorityEvent>, n: nat)
    requires before <= after && n <= |before|
    ensures forall s, k :: Seen(before, n, s, k) <==> Seen(after, n, s, k)
  {
    assert forall j :: 0 <= j < n ==> before[j] == after[j];
  }

  lemma SeenMore(events: seq<AuthorityEvent>, m: nat, n: nat)
    requires m <= n <= |events|
    ensures forall s, k :: Seen(events, m, s, k) ==> Seen(events, n, s, k)
  {
  }

  /** An event that was in order stays in order, however the ledger evolves. */
  lemma OldEvent(a: Ledger, b: Ledger, i: nat)
    requires Forest(a.scopes) && Forest(b.scopes) && Evolves(a, b)
    requires i < |a.events| && EventRow(a, i)
    ensures EventRow(b, i)
  {
    assert b.events[i] == a.events[i];
    OldPlaced(a, b, i);
    OldAuthorised(a, b, i);
    if a.events[i].actionId.Some? {
      SeenPrefix(a.events, b.events, i + 1);
    }
  }

  lemma OldPlaced(a: Ledger, b: Ledger, i: nat)
    requires Evolves(a, b) && i < |a.events| && Placed(a, i)
    ensures Placed(b, i)
  {
    assert forall j :: 0 <= j <= i ==> b.events[j] == a.events[j];
  }

  lemma OldAuthorised(a: Ledger, b: Ledger, i: nat)
    requires Forest(a.scopes) && Forest(b.scopes) && Evolves(a, b)
    requires i < |a.events| && Placed(a, i) && Authorised(a, i)
    ensures Authorised(b, i)
  {
    assert b.events[i] == a.events[i];
    SeenPrefix(a.events, b.events, i + 1);
    LinesStable(a.scopes, b.scopes);
  }

  lemma OldEvents(a: Ledger, b: Ledger)
    requires Forest(a.scopes) && Forest(b.scopes) && Evolves(a, b) && History(a)
    ensures forall i :: 0 <= i < |a.events| ==> EventRow(b, i)
    ensures forall id :: id in a.scopes && b.scopes[id].revokedAt == a.scopes[id].revokedAt ==> ScopeRecorded(b, id)
    ensures forall id :: id in a.actions && b.actions[id] == a.actions[id] ==> ActionRecorded(b, id)
  {
    forall i | 0 <= i < |a.events| ensures EventRow(b, i) { OldEvent(a, b, i); }
    SeenPrefix(a.events, b.events, |a.events|);
    SeenMore(b.events, |a.events|, |b.events|);
  }

  /** History grows by one event: only that event and the rows it touched need looking at. */
  lemma HistoryGrows(a: Ledger, b: Ledger)
    requires Forest(a.scopes) && Forest(b.scopes) && Evolves(a, b) && History(a)
    requires |b.events| == |a.events| + 1 && EventRow(b, |a.events|)
    requires forall id :: id in b.scopes ==>
      (id in a.scopes && b.scopes[id].revokedAt == a.scopes[id].revokedAt) || ScopeRecorded(b, id)
    requires forall id :: id in b.actions ==>
      (id in a.actions && b.actions[id] == a.actions[id]) || ActionRecorded(b, id)
    ensures History(b)
  {
    OldEvents(a, b);
    forall i | 0 <= i < |b.events| ensures EventRow(b, i) {
      if i < |a.events| {} else { assert i == |a.events|; }
    }
  }
}
