/** Validation of portable evidence, and of one export as an extension of another. */
module ScopeValidation {
  import opened Order
  import opened ScopeTypes
  import opened ScopeForest
  import opened ScopeConsistency
  import opened ScopeEvolution
  import opened ScopeEvidence
  import opened ScopeEventCheck
  import opened ScopeSteps

  // ------------------------------------------------------------------ one export

  ghost predicate RowsPass(c: Contracts, e: Evidence) {
    && (forall i :: 0 <= i < |e.scopes| ==> CanonicalScope(c, e.scopes[i]))
    && (forall i :: 0 <= i < |e.actions| ==> CanonicalAction(c, e.actions[i]))
    && RequestsDistinct(e.actions, |e.actions|)
  }

  ghost predicate CanonicalActions(c: Contracts, l: Ledger) {
    forall id :: id in l.actions ==> ActionKey(l.actions[id]) == id && CanonicalAction(c, l.actions[id])
  }

  lemma OneRow(rows: seq<ActionRecord>, a: string, b: string)
    requires RisingBy(ActionKey, rows) && RequestsDistinct(rows, |rows|)
    requires a in Table(ActionKey, rows) && b in Table(ActionKey, rows)
    requires SameRequest(Table(ActionKey, rows)[a].action, Table(ActionKey, rows)[b].action)
    ensures a == b
  {
    var i := TableFrom(ActionKey, rows, a);
    var j := TableFrom(ActionKey, rows, b);
    TableHolds(ActionKey, rows, i);
    TableHolds(ActionKey, rows, j);
  }

  lemma RowsApart(rows: seq<ActionRecord>, i: nat, j: nat)
    requires RisingBy(ActionKey, rows) && i < j < |rows|
    requires ActionKey(rows[i]) in Table(ActionKey, rows) && ActionKey(rows[j]) in Table(ActionKey, rows)
    requires SameRequest(Table(ActionKey, rows)[ActionKey(rows[i])].action,
                         Table(ActionKey, rows)[ActionKey(rows[j])].action) ==>
      ActionKey(rows[i]) == ActionKey(rows[j])
    ensures !SameRequest(rows[i].action, rows[j].action)
  {
    RisingByFar(ActionKey, rows, i, j);
    TableHolds(ActionKey, rows, i);
    TableHolds(ActionKey, rows, j);
  }

  lemma KeyedRequests(e: Evidence)
    requires Listed(e)
    ensures RequestsDistinct(e.actions, |e.actions|) <==> Keyed(AsLedger(e))
  {
    var l := AsLedger(e);
    TableRows(ScopeKey, e.scopes);
    TableRows(ActionKey, e.actions);
    if RequestsDistinct(e.actions, |e.actions|) {
      forall a, b | a in l.actions && b in l.actions && SameRequest(l.actions[a].action, l.actions[b].action)
        ensures a == b
      {
        OneRow(e.actions, a, b);
      }
    }
    if Keyed(l) {
      forall i, j | 0 <= i < j < |e.actions| ensures !SameRequest(e.actions[i].action, e.actions[j].action) {
        RowsApart(e.actions, i, j);
      }
    }
  }

  lemma ScopesCanonical(c: Contracts, rows: seq<ScopeRecord>)
    requires RisingBy(ScopeKey, rows)
    ensures (forall i :: 0 <= i < |rows| ==> CanonicalScope(c, rows[i])) <==> CanonicalTable(c, Table(ScopeKey, rows))
  {
    TableRows(ScopeKey, rows);
  }

  lemma ActionsCanonical(c: Contracts, l: Ledger, rows: seq<ActionRecord>)
    requires RisingBy(ActionKey, rows) && l.actions == Table(ActionKey, rows)
    ensures (forall i :: 0 <= i < |rows| ==> CanonicalAction(c, rows[i])) <==> CanonicalActions(c, l)
  {
    TableRows(ActionKey, rows);
  }

  lemma RowsAreTables(c: Contracts, e: Evidence)
    requires Listed(e)
    ensures RowsPass(c, e) <==>
      CanonicalTable(c, AsLedger(e).scopes) && CanonicalActions(c, AsLedger(e)) && Keyed(AsLedger(e))
  {
    ScopesCanonical(c, e.scopes);
    ActionsCanonical(c, AsLedger(e), e.actions);
    KeyedRequests(e);
  }

  lemma ScopesAreRows(c: Contracts, e: Evidence)
    requires Listed(e)
    ensures (forall i :: 0 <= i < |e.scopes| ==> ScopeChecked(c, AsLedger(e), ScopeKey(e.scopes[i]))) <==>
      (forall id :: id in AsLedger(e).scopes ==> ScopeChecked(c, AsLedger(e), id))
  {
    TableRows(ScopeKey, e.scopes);
  }

  ghost predicate ActionRows(c: Contracts, l: Ledger)
    requires Forest(l.scopes)
  {
    forall id :: id in l.actions ==> ActionRow(c, l, id)
  }

  lemma ActionsAreRows(c: Contracts, e: Evidence)
    requires Listed(e) && ScopesPass(c, AsLedger(e)) && CanonicalActions(c, AsLedger(e))
    ensures AllChecked(c, AsLedger(e), e.actions) <==> ActionRows(c, AsLedger(e))
  {
    var l := AsLedger(e);
    TableRows(ActionKey, e.actions);
    AllCheckedRows(c, l, e.actions);
    forall i | 0 <= i < |e.actions|
      ensures ActionChecked(c, l, e.actions[i]) <==> ActionRow(c, l, ActionKey(e.actions[i]))
    {
      CheckedAction(c, l, ActionKey(e.actions[i]));
    }
  }

  /** What the passes establish one after the other. */
  ghost predicate Passes(c: Contracts, l: Ledger) {
    && CanonicalTable(c, l.scopes) && CanonicalActions(c, l) && Keyed(l)
    && SoundScopes(c, l.scopes) && Forest(l.scopes) && (forall id :: id in l.scopes ==> ScopeRow(l, id))
    && ActionRows(c, l)
  }

  lemma PassesAreTables(c: Contracts, l: Ledger)
    requires l.lastSeen >= 0 && c.ownerOk(l.owner)
    ensures Passes(c, l) <==> Tables(c, l)
  {
    if Tables(c, l) {
      forall id | id in l.scopes ensures l.scopes[id].grant.scopeId == id && CanonicalScope(c, l.scopes[id]) {
        assert SoundScope(c, l.scopes, id);
      }
      forall id | id in l.actions ensures ActionKey(l.actions[id]) == id && CanonicalAction(c, l.actions[id]) {
        assert ActionRow(c, l, id);
      }
    }
  }

  /** The passes over rows and ancestry: everything but charges and events. */
  method CheckTables(c: Contracts, e: Evidence) returns (ok: bool, tally: Tally)
    requires Lawful(c) && Listed(e)
    ensures ok <==> Passes(c, AsLedger(e))
    ensures ok ==> Tallied(AsLedger(e), AsLedger(e).actions, tally)
  {
    var l := AsLedger(e);
    tally := map[];
    RowsAreTables(c, e);
    ok := CheckRows(c, e);
    if !ok { return; }
    ScopesAreRows(c, e);
    ScopesChecked(c, l);
    ok := CheckScopes(c, l, e.scopes);
    if !ok { return; }
    ActionsAreRows(c, e);
    ok, tally := CheckActions(c, l, e.actions);
  }

  /**
   * Offline validation accepts exactly the evidence that lists its rows in order and describes a
   * consistent ledger; whatever is wrong, it is refused.
   */
  method Validate(c: Contracts, e: Evidence) returns (ok: bool)
    requires Lawful(c)
    ensures ok <==> Listed(e) && Consistent(c, AsLedger(e))
  {
    var l := AsLedger(e);
    if e.schemaVersion != 1 || e.lastSeen < 0 || !c.ownerOk(e.owner) { return false; }
    if !RisingBy(ScopeKey, e.scopes) || !RisingBy(ActionKey, e.actions) { return false; }
    PassesAreTables(c, l);
    var tally;
    ok, tally := CheckTables(c, e);
    if !ok { return; }
    TableRows(ScopeKey, e.scopes);
    ok := CheckCharges(l, e.scopes, tally);
    if !ok { return; }
    ok := VerifyEvents(l);
  }

  // ------------------------------------------------------------------ extension

  predicate ScopeRetained(old_: ScopeRecord, new_: ScopeRecord) {
    && new_.grant == old_.grant && new_.issuedAt == old_.issuedAt
    && (old_.revokedAt.Some? ==> new_.revokedAt == old_.revokedAt)
  }

  predicate ActionRetained(old_: ActionRecord, new_: ActionRecord) {
    && new_.action == old_.action && new_.evidence == old_.evidence && new_.reservedAt == old_.reservedAt
    && (old_.dispatchClaimedAt.Some? ==> new_.dispatchClaimedAt == old_.dispatchClaimedAt)
    && (old_.state.ApiAccepted? || old_.state.Rejected? || old_.state.Unknown? ==> new_ == old_)
  }

  /** The comparison the validator makes between two exports it has already accepted. */
  predicate Extends(a: Ledger, b: Ledger) {
    && b.owner == a.owner && a.lastSeen <= b.lastSeen && a.events <= b.events
    && (forall i :: |a.events| <= i < |b.events| ==>
        b.events[i].observedAt.Some? ==> a.lastSeen <= b.events[i].observedAt.value)
    && (forall id :: id in a.scopes ==> id in b.scopes && ScopeRetained(a.scopes[id], b.scopes[id]))
    && (forall id :: id in a.actions ==> id in b.actions && ActionRetained(a.actions[id], b.actions[id]))
  }

  lemma RevokedEvent(l: Ledger, j: nat)
    requires Forest(l.scopes) && j < |l.events| && EventRow(l, j) && l.events[j].kind.ScopeRevoked?
    ensures Subject(l.events[j]) in l.scopes && l.scopes[Subject(l.events[j])].revokedAt.Some?
    ensures l.events[j].observedAt == l.scopes[Subject(l.events[j])].revokedAt
  {
  }

  lemma ClaimedEvent(l: Ledger, j: nat)
    requires Forest(l.scopes) && j < |l.events| && EventRow(l, j) && l.events[j].kind.ClaimRecorded?
    ensures Subject(l.events[j]) in l.actions && l.actions[Subject(l.events[j])].dispatchClaimedAt.Some?
    ensures l.events[j].observedAt == l.actions[Subject(l.events[j])].dispatchClaimedAt
  {
  }

  /** A revocation that is new in the later export was recorded after the earlier one was taken. */
  lemma LaterRevocation(a: Ledger, b: Ledger, id: string)
    requires Forest(a.scopes) && Forest(b.scopes) && History(a) && History(b) && Extends(a, b) && id in a.scopes
    requires a.scopes[id].revokedAt.None? && b.scopes[id].revokedAt.Some?
    ensures a.lastSeen <= b.scopes[id].revokedAt.value
  {
    assert ScopeRecorded(b, id);
    var j :| 0 <= j < |b.events| && Subject(b.events[j]) == id && b.events[j].kind == ScopeRevoked;
    RevokedEvent(b, j);
    if j < |a.events| {
      assert a.events[j] == b.events[j];
      RevokedEvent(a, j);
    }
  }

  lemma LaterClaim(a: Ledger, b: Ledger, id: string)
    requires Forest(a.scopes) && Forest(b.scopes) && History(a) && History(b) && Extends(a, b) && id in a.actions
    requires a.actions[id].dispatchClaimedAt.None? && b.actions[id].dispatchClaimedAt.Some?
    ensures a.lastSeen <= b.actions[id].dispatchClaimedAt.value
  {
    assert ActionRecorded(b, id);
    var j :| 0 <= j < |b.events| && Subject(b.events[j]) == id && b.events[j].kind == ClaimRecorded;
    ClaimedEvent(b, j);
    if j < |a.events| {
      assert a.events[j] == b.events[j];
      ClaimedEvent(a, j);
    }
  }

  lemma {:induction false} SubsetSize<T>(a: set<T>, b: set<T>)
    requires a <= b
    ensures |a| <= |b|
  {
    if a != {} {
      var x :| x in a;
      SubsetSize(a - {x}, b - {x});
    }
  }

  lemma UnderRises(a: Ledger, b: Ledger, id: string)
    requires Forest(a.scopes) && Forest(b.scopes) && SameGrants(a.scopes, b.scopes)
    requires forall x :: x in a.actions ==> a.actions[x].action.scopeId in a.scopes
    requires forall x :: x in a.actions ==> x in b.actions && b.actions[x].action == a.actions[x].action
    ensures Under(a, id) <= Under(b, id) && |Under(a, id)| <= |Under(b, id)| && Touched(a, id) <= Touched(b, id)
  {
    LinesStable(a.scopes, b.scopes);
    SubsetSize(Under(a, id), Under(b, id));
    forall r | r in Touched(a, id) ensures r in Touched(b, id) {
      var x :| x in Under(a, id) && a.actions[x].action.resource == r;
      assert x in Under(b, id) && b.actions[x].action.resource == r;
    }
  }

  /** Charges can only rise when actions are only added. */
  lemma ChargesRise(c: Contracts, a: Ledger, b: Ledger, id: string)
    requires Tables(c, a) && Forest(b.scopes) && Charges(a) && Charges(b) && Extends(a, b) && id in a.scopes
    ensures a.scopes[id].chargedAttempts <= b.scopes[id].chargedAttempts
    ensures a.scopes[id].chargedResources <= b.scopes[id].chargedResources
  {
    assert Charged(a, id) && Charged(b, id);
    ActionScopes(c, a);
    UnderRises(a, b, id);
  }

  lemma ScopeEvolves(c: Contracts, a: Ledger, b: Ledger, id: string)
    requires Consistent(c, a) && Consistent(c, b) && Extends(a, b) && id in a.scopes
    ensures ScopeKept(a.scopes[id], b.scopes[id], a.lastSeen)
  {
    assert SoundScope(c, a.scopes, id) && SoundScope(c, b.scopes, id);
    ChargesRise(c, a, b, id);
    if a.scopes[id].revokedAt.None? && b.scopes[id].revokedAt.Some? { LaterRevocation(a, b, id); }
  }

  lemma ActionEvolves(c: Contracts, a: Ledger, b: Ledger, id: string)
    requires Consistent(c, a) && Consistent(c, b) && Extends(a, b) && id in a.actions
    ensures ActionKept(a.actions[id], b.actions[id], a.lastSeen)
  {
    RowFacts(c, a, id);
    RowFacts(c, b, id);
    if a.actions[id].dispatchClaimedAt.None? && b.actions[id].dispatchClaimedAt.Some? { LaterClaim(a, b, id); }
    RetainedKept(c, a.actions[id], b.actions[id], a.lastSeen);
  }

  lemma RowFacts(c: Contracts, l: Ledger, id: string)
    requires Tables(c, l) && id in l.actions
    ensures StateFits(l.actions[id]) && l.actions[id].digest == c.actionDigest(l.actions[id].action)
  {
    assert ActionRow(c, l, id);
  }

  lemma RetainedKept(c: Contracts, old_: ActionRecord, new_: ActionRecord, since: int)
    requires ActionRetained(old_, new_) && StateFits(old_) && StateFits(new_)
    requires old_.digest == c.actionDigest(old_.action) && new_.digest == c.actionDigest(new_.action)
    requires old_.dispatchClaimedAt.None? && new_.dispatchClaimedAt.Some? ==> since <= new_.dispatchClaimedAt.value
    ensures ActionKept(old_, new_, since)
  {
  }

  lemma EvolvesExtends(a: Ledger, b: Ledger)
    requires Evolves(a, b)
    ensures Extends(a, b)
  {
  }

  lemma ExtendsEvolves(a: Ledger, b: Ledger)
    requires Extends(a, b)
    requires forall id :: id in a.scopes ==> ScopeKept(a.scopes[id], b.scopes[id], a.lastSeen)
    requires forall id :: id in a.actions ==> ActionKept(a.actions[id], b.actions[id], a.lastSeen)
    ensures Evolves(a, b)
  {
  }

  /**
   * Between two consistent ledgers the comparison is exact: it holds just when the later ledger is an
   * evolution of the earlier one, including the charge counters and times it does not look at.
   */
  lemma ExtendsIsEvolves(c: Contracts, a: Ledger, b: Ledger)
    requires Consistent(c, a) && Consistent(c, b)
    ensures Extends(a, b) <==> Evolves(a, b)
  {
    if Extends(a, b) {
      forall id | id in a.scopes
        ensures ScopeKept(a.scopes[id], b.scopes[id], a.lastSeen)
      {
        ScopeEvolves(c, a, b, id);
      }
      forall id | id in a.actions
        ensures ActionKept(a.actions[id], b.actions[id], a.lastSeen)
      {
        ActionEvolves(c, a, b, id);
      }
      ExtendsEvolves(a, b);
    }
    if Evolves(a, b) { EvolvesExtends(a, b); }
  }

  /** An export is accepted as an extension exactly when both are valid and the later one evolves the earlier. */
  method ValidateExtension(c: Contracts, e: Evidence, previous: Evidence) returns (ok: bool)
    requires Lawful(c)
    ensures ok <==>
      && Listed(e) && Consistent(c, AsLedger(e)) && Listed(previous) && Consistent(c, AsLedger(previous))
      && Evolves(AsLedger(previous), AsLedger(e))
  {
    ok := Validate(c, e);
    if !ok { return; }
    ok := Validate(c, previous);
    if !ok { return; }
    ExtendsIsEvolves(c, AsLedger(previous), AsLedger(e));
    ok := Extends(AsLedger(previous), AsLedger(e));
  }
}
