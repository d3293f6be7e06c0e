/** The durable scope store: its tables are updated row by row inside a savepoint. */
module ScopeStorage {
  import opened Wrappers
  import opened Order
  import opened ScopeTypes
  import opened ScopeForest
  import opened ScopeConsistency
  import opened ScopeLedger
  import opened ScopeEvidence
  import opened ScopeEvolution
  import opened ScopeRuns
  import opened ScopeTheorems
  import ScopeValidation

  // ------------------------------------------------------------------ reading chains

  /** Rows walked so far are stored rows with distinct ids. */
  ghost predicate StoredRows(scopes: Scopes, chain: seq<ScopeRecord>) {
    && (forall i :: 0 <= i < |chain| ==> chain[i].grant.scopeId in scopes && scopes[chain[i].grant.scopeId] == chain[i])
    && (forall i, j :: 0 <= i < j < |chain| ==> chain[i].grant.scopeId != chain[j].grant.scopeId)
  }

  lemma {:induction false} WalkStored(c: Contracts, scopes: Scopes, id: string, chain: seq<ScopeRecord>)
    requires StoredRows(scopes, chain) && Walk(c, scopes, id, chain).Ok?
    ensures StoredRows(scopes, Walk(c, scopes, id, chain).value)
    decreases MAX_DEPTH + 1 - |chain|
  {
    var r := scopes[id];
    assert StoredRows(scopes, chain + [r]);
    if r.grant.parentId.Some? { WalkStored(c, scopes, r.grant.parentId.value, chain + [r]); }
  }

  method ReadChain(c: Contracts, scopes: Scopes, id: string) returns (r: Result<seq<ScopeRecord>, StoreError>)
    ensures r == Chain(c, scopes, id)
  {
    var rows: seq<ScopeRecord> := [];
    var current := Some(id);
    while current.Some?
      invariant |rows| <= MAX_DEPTH + 1
      invariant current.Some? ==> Walk(c, scopes, id, []) == Walk(c, scopes, current.value, rows)
      invariant current.None? ==> Walk(c, scopes, id, []) == Ok(rows)
      decreases MAX_DEPTH + 2 - |rows|, current.Some?
    {
      if |rows| > MAX_DEPTH || Visited(rows, current.value) { return Err(Corrupt); }
      var row := LoadScope(c, scopes, current.value);
      if row.Err? { return Err(row.error); }
      current := row.value.grant.parentId;
      rows := rows + [row.value];
    }
    var i := 0;
    while i + 1 < |rows|
      invariant 0 <= i <= |rows|
      invariant Links(c, rows) == Links(c, rows[i..])
    {
      var broken := c.childOf(rows[i].grant, rows[i + 1].grant);
      if broken.Some? { return Err(Validation(broken.value)); }
      assert rows[i..][1..] == rows[i + 1..];
      i := i + 1;
    }
    return Ok(rows);
  }

  method ReadActiveChain(c: Contracts, scopes: Scopes, id: string, now: int) returns (r: Result<seq<ScopeRecord>,
                         StoreError>)
    ensures r == ActiveChain(c, scopes, id, now)
    ensures r.Ok? ==> StoredRows(scopes, r.value)
  {
    r := ReadChain(c, scopes, id);
    if r.Ok? {
      WalkStored(c, scopes, id, []);
      if exists i :: 0 <= i < |r.value| && !Active(r.value[i], now) { r := Err(Inactive); }
    }
  }

  /** `SELECT id … ORDER BY id`. */
  method SortedIds(ids: set<string>) returns (listing: seq<string>)
    ensures listing == Listing(ids)
  {
    listing := [];
    var rest := ids;
    while rest != {}
      invariant Rising(listing)
      invariant forall x :: x in ids <==> x in rest || x in listing
      invariant forall x, y :: x in rest && y in listing ==> Less(y, x)
      decreases |rest|
    {
      LeastExists(rest);
      var x :| x in rest && forall y :: y in rest ==> y == x || Less(x, y);
      LessIrreflexive(x);
      listing := listing + [x];
      rest := rest - {x};
    }
    RisingUnique(listing, Listing(ids));
  }

  // ------------------------------------------------------------------ reading evidence

  ghost predicate ReadsBack(c: Contracts, l: Ledger) {
    CanonicalTable(c, l.scopes) && ScopeValidation.CanonicalActions(c, l)
  }

  lemma ConsistentReadsBack(c: Contracts, l: Ledger)
    requires Tables(c, l)
    ensures ReadsBack(c, l)
  {
    ScopeValidation.PassesAreTables(c, l);
  }

  predicate ScopeLoads(c: Contracts, scopes: Scopes, id: string) {
    id in scopes && ScopeKey(scopes[id]) == id && CanonicalScope(c, scopes[id])
  }

  predicate ActionLoads(c: Contracts, actions: map<string, ActionRecord>, id: string) {
    id in actions && ActionKey(actions[id]) == id && CanonicalAction(c, actions[id])
  }

  method LoadOneScope(c: Contracts, scopes: Scopes, id: string) returns (r: Result<ScopeRecord, StoreError>)
    requires id in scopes
    ensures if r.Ok? then ScopeLoads(c, scopes, id) && r.value == scopes[id] else !ScopeLoads(c, scopes, id)
  {
    r := LoadScope(c, scopes, id);
  }

  method LoadOneAction(c: Contracts, l: Ledger, id: string) returns (r: Result<ActionRecord, StoreError>)
    requires id in l.actions
    ensures if r.Ok? then ActionLoads(c, l.actions, id) && r.value == l.actions[id] else !ActionLoads(c, l.actions, id)
  {
    r := LoadAction(c, l, id);
  }

  lemma ScopesLoaded(c: Contracts, scopes: Scopes, ids: seq<string>)
    requires Rising(ids) && (forall id :: id in ids <==> id in scopes)
    requires forall k :: 0 <= k < |ids| ==> ScopeLoads(c, scopes, ids[k])
    ensures RisingBy(ScopeKey, Select(scopes, ids)) && Table(ScopeKey, Select(scopes, ids)) == scopes
    ensures CanonicalTable(c, scopes)
  {
    ListedTable(ScopeKey, scopes, ids, Select(scopes, ids));
    forall id | id in scopes ensures scopes[id].grant.scopeId == id && CanonicalScope(c, scopes[id]) {
      var k :| 0 <= k < |ids| && ids[k] == id;
      assert ScopeLoads(c, scopes, ids[k]);
    }
  }

  lemma ActionsLoaded(c: Contracts, l: Ledger, ids: seq<string>)
    requires Rising(ids) && (forall id :: id in ids <==> id in l.actions)
    requires forall k :: 0 <= k < |ids| ==> ActionLoads(c, l.actions, ids[k])
    ensures RisingBy(ActionKey, Select(l.actions, ids)) && Table(ActionKey, Select(l.actions, ids)) == l.actions
    ensures ScopeValidation.CanonicalActions(c, l)
  {
    ListedTable(ActionKey, l.actions, ids, Select(l.actions, ids));
    forall id | id in l.actions ensures ActionKey(l.actions[id]) == id && CanonicalAction(c, l.actions[id]) {
      var k :| 0 <= k < |ids| && ids[k] == id;
      assert ActionLoads(c, l.actions, ids[k]);
    }
  }

  method LoadScopes(c: Contracts, l: Ledger) returns (r: Result<seq<ScopeRecord>, StoreError>)
    ensures r.Ok? <==> CanonicalTable(c, l.scopes)
    ensures r.Ok? ==> RisingBy(ScopeKey, r.value) && Table(ScopeKey, r.value) == l.scopes
  {
    var ids := SortedIds(l.scopes.Keys);
    for i := 0 to |ids|
      invariant forall k :: 0 <= k < i ==> ScopeLoads(c, l.scopes, ids[k])
    {
      assert ids[i] in l.scopes.Keys;
      var row := LoadOneScope(c, l.scopes, ids[i]);
      if row.Err? { return Err(row.error); }
    }
    ScopesLoaded(c, l.scopes, ids);
    return Ok(Select(l.scopes, ids));
  }

  method LoadActions(c: Contracts, l: Ledger) returns (r: Result<seq<ActionRecord>, StoreError>)
    ensures r.Ok? <==> ScopeValidation.CanonicalActions(c, l)
    ensures r.Ok? ==> RisingBy(ActionKey, r.value) && Table(ActionKey, r.value) == l.actions
    ensures r.Ok? ==> r.value == Select(l.actions, Listing(l.actions.Keys))
  {
    var ids := SortedIds(l.actions.Keys);
    for i := 0 to |ids|
      invariant forall k :: 0 <= k < i ==> ActionLoads(c, l.actions, ids[k])
    {
      assert ids[i] in l.actions.Keys;
      var row := LoadOneAction(c, l, ids[i]);
      if row.Err? { return Err(row.error); }
    }
    ActionsLoaded(c, l, ids);
    return Ok(Select(l.actions, ids));
  }

  /** Every row, in the canonical order of an export; fails on any row that does not load. */
  method ReadEvidence(c: Contracts, l: Ledger) returns (r: Result<Evidence, StoreError>)
    ensures r.Ok? <==> ReadsBack(c, l)
    ensures r.Ok? ==> Listed(r.value) && AsLedger(r.value) == l
  {
    var scopes := LoadScopes(c, l);
    if scopes.Err? { return Err(scopes.error); }
    var actions := LoadActions(c, l);
    if actions.Err? { return Err(actions.error); }
    return Ok(Evidence.Evidence(1, l.owner, l.lastSeen, scopes.value, actions.value, l.events));
  }

  /** `Ok` carries the action rows, in id order, of a ledger that passed every check. */
  method VerifyAll(c: Contracts, l: Ledger) returns (r: Result<seq<ActionRecord>, StoreError>)
    requires Lawful(c)
    ensures r.Ok? <==> Consistent(c, l)
    ensures r.Ok? ==> Keyed(l) && r.value == Select(l.actions, Listing(l.actions.Keys))
  {
    if Tables(c, l) { ConsistentReadsBack(c, l); }
    var evidence := ReadEvidence(c, l);
    if evidence.Err? { return Err(evidence.error); }
    var valid := ScopeValidation.Validate(c, evidence.value);
    if !valid { return Err(Corrupt); }
    r := LoadActions(c, l);
  }

  /** Why a ledger is refused before any row is read. */
  ghost function Unwelcome(c: Contracts, l: Ledger, owner: AuthorityOwner): Option<StoreError> {
    if !c.ownerOk(owner) then Some(Validation(Invalid))
    else if Metadata(c, l).Some? then Metadata(c, l)
    else if owner != l.owner then Some(OwnerMismatch)
    else None
  }

  method CheckOpen(c: Contracts, l: Ledger, owner: AuthorityOwner) returns (r: Result<seq<ActionRecord>, StoreError>)
    requires Lawful(c)
    ensures r.Ok? ==> Open(c, l, owner) == Recover(l, Listing(l.actions.Keys))
    ensures r.Err? ==> Open(c, l, owner).Err?
    ensures Unwelcome(c, l, owner).Some? ==> r == Err(Unwelcome(c, l, owner).value)
    ensures r.Ok? ==> Keyed(l) && r.value == Select(l.actions, Listing(l.actions.Keys))
  {
    if !c.ownerOk(owner) { return Err(Validation(Invalid)); }
    if !c.ownerOk(l.owner) { return Err(Validation(Invalid)); }
    if l.lastSeen < 0 { return Err(Corrupt); }
    if owner != l.owner { return Err(OwnerMismatch); }
    r := VerifyAll(c, l);
  }

  lemma OpenedConsistent(c: Contracts, l: Ledger, owner: AuthorityOwner)
    ensures Open(c, l, owner).Ok? ==> Consistent(c, Open(c, l, owner).value)
  {
    if Open(c, l, owner).Ok? { OpenExact(c, l, owner); }
  }

  lemma Untouched<T>(a: map<string, T>, b: map<string, T>, changed: string, id: string)
    requires a - {changed} == b - {changed} && id != changed && id in a
    ensures id in b && b[id] == a[id]
  {
    assert id in a - {changed};
  }

  lemma RestUntouched(a: map<string, ActionRecord>, b: map<string, ActionRecord>, ids: seq<string>,
                      rows: seq<ActionRecord>, i: nat)
    requires Rising(ids) && i < |ids| == |rows| && a - {ids[i]} == b - {ids[i]}
    requires forall k :: i <= k < |ids| ==> ids[k] in a && a[ids[k]] == rows[k]
    ensures forall k :: i < k < |ids| ==> ids[k] in b && b[ids[k]] == rows[k]
  {
    forall k | i < k < |ids| ensures ids[k] in b && b[ids[k]] == rows[k] {
      RisingFar(ids, i, k);
      Untouched(a, b, ids[i], ids[k]);
    }
  }

  lemma {:induction false} StuckRecovery(l: Ledger, ids: seq<string>, n: nat)
    requires n <= |ids| && (forall id :: id in ids ==> id in l.actions) && Recover(l, ids[..n]).Err?
    ensures Recover(l, ids).Err?
    decreases |ids| - n
  {
    if n == |ids| {
      assert ids[..n] == ids;
    } else {
      assert ids[..n + 1][..n] == ids[..n];
      StuckRecovery(l, ids, n + 1);
    }
  }

  /** Exports taken at any two points of any run are valid, and the later extends the earlier. */
  lemma ExportsExtend(c: Contracts, owner: AuthorityOwner, steps: seq<Step>, k: nat, earlier: Evidence, later: Evidence)
    requires Lawful(c) && c.ownerOk(owner) && k <= |steps|
    requires AsLedger(earlier) == Run(c, Fresh(owner), steps[..k]) && AsLedger(later) == Run(c, Fresh(owner), steps)
    ensures Consistent(c, AsLedger(earlier)) && Consistent(c, AsLedger(later))
    ensures Evolves(AsLedger(earlier), AsLedger(later))
    ensures ScopeValidation.Extends(AsLedger(earlier), AsLedger(later))
  {
    ReachableConsistent(c, owner, steps[..k], 0);
    ReachableConsistent(c, owner, steps, k);
    ScopeValidation.EvolvesExtends(AsLedger(earlier), AsLedger(later));
  }

  // ------------------------------------------------------------------ the store

  const MAX_EXPORT_BYTES: nat := 64 * 1024 * 1024

  /** Rows of a chain that are already charged when the first `n` have been saved. */
  lemma ChargedSoFar(scopes: Scopes, chain: seq<ScopeRecord>, n: nat, resource: string)
    requires StoredRows(scopes, chain) && n < |chain|
    ensures var row := chain[n];
      ChargeAll(scopes, chain[..n + 1], resource) ==
      ChargeAll(scopes, chain[..n], resource)[row.grant.scopeId := Charge(row, resource)]
  {
    VisitedStep(chain, n);
  }

  class ScopeStore {
    const checks: Contracts
    var owner: AuthorityOwner
    var lastSeen: int
    var scopes: Scopes
    var actions: map<string, ActionRecord>
    var events: seq<AuthorityEvent>

    /** Tables of a new database. */
    constructor (c: Contracts, o: AuthorityOwner)
      requires Lawful(c) && c.ownerOk(o)
      ensures checks == c && State() == Fresh(o) && Valid()
    {
      checks, owner, lastSeen, scopes, actions, events := c, o, 0, map[], map[], [];
      new;
      FreshConsistent(c, o);
    }

    ghost function State(): Ledger
      reads this
    {
      Ledger(owner, lastSeen, scopes, actions, events)
    }

    ghost predicate Valid()
      reads this
    {
      Lawful(checks) && Consistent(checks, State())
    }

    // ---------------------------------------------------------------- rows

    method SaveScope(row: ScopeRecord)
      requires row.grant.scopeId in scopes
      modifies this`scopes
      ensures scopes == old(scopes)[row.grant.scopeId := row]
    {
      scopes := scopes[row.grant.scopeId := row];
    }

    method AppendEvent(scope: string, action: Option<string>, kind: EventKind, at: Option<int>, digest: string)
      returns (e: Option<StoreError>)
      modifies this`events
      ensures e.None? <==> LastSequence(old(events)) < I64_MAX
      ensures e.Some? ==> e.value == Corrupt && events == old(events)
      ensures e.None? ==>
        events == old(events) + [AuthorityEvent(LastSequence(old(events)) + 1, scope, action, kind, at, digest)]
    {
      var previous := LastSequence(events);
      if previous >= I64_MAX { return Some(Corrupt); }
      events := events + [AuthorityEvent(previous + 1, scope, action, kind, at, digest)];
      return None;
    }

    /** Charge and save every scope of a loaded chain. */
    method ChargeChain(chain: seq<ScopeRecord>, resource: string)
      requires StoredRows(scopes, chain)
      modifies this`scopes
      ensures scopes == ChargeAll(old(scopes), chain, resource)
    {
      ghost var before := scopes;
      assert ChargeAll(before, chain[..0], resource) == before;
      for i := 0 to |chain|
        invariant scopes == ChargeAll(before, chain[..i], resource)
      {
        ChargedSoFar(before, chain, i, resource);
        SaveScope(Charge(chain[i], resource));
      }
      assert chain[..|chain|] == chain;
    }

    // ---------------------------------------------------------------- transaction bodies

    method IssueBody(grant: ScopeGrant, guard: Guard, now: int) returns (r: Result<Reply, StoreError>)
      modifies this`scopes, this`events
      ensures r == IssueTx(checks, old(State()), grant, guard, now).reply
      ensures r.Ok? ==> State() == IssueTx(checks, old(State()), grant, guard, now).ledger
    {
      var existing := LoadScope(checks, scopes, grant.scopeId);
      if existing.Ok? {
        if existing.value.grant == grant { return Ok(OfScope(existing.value)); }
        return Err(IdempotencyConflict);
      }
      if !existing.error.NotFound? { return Err(existing.error); }
      if now >= grant.expiresAt { return Err(Inactive); }
      if grant.parentId.Some? {
        var ancestors := ReadActiveChain(checks, scopes, grant.parentId.value, now);
        if ancestors.Err? { return Err(ancestors.error); }
        var wider := checks.childOf(grant, ancestors.value[0].grant);
        if wider.Some? { return Err(Validation(wider.value)); }
        if |ancestors.value| > MAX_DEPTH { return Err(Validation(NotSubset)); }
      }
      var refused := guard.verifyScope(grant, now);
      if refused.Some? { return Err(Authority(refused.value)); }
      var record := ScopeRecord(grant, checks.grantDigest(grant), now, None, 0, {});
      scopes := scopes[grant.scopeId := record];
      var full := AppendEvent(grant.scopeId, None, ScopeIssued, Some(now), record.digest);
      if full.Some? { return Err(full.value); }
      return Ok(OfScope(record));
    }

    /** The duplicate lookup may return any matching row; the answer does not depend on which. */
    method FindDuplicate(action: PreparedAction) returns (found: bool, r: Result<Reply, StoreError>)
      requires Keyed(State())
      ensures found <==> exists id :: id in actions && Collides(actions[id].action, action)
      ensures found && action.actionId in actions && actions[action.actionId].action == action ==>
        r == Ok(OfAction(actions[action.actionId]))
      ensures found && !(action.actionId in actions && actions[action.actionId].action == action) ==>
        r == Err(IdempotencyConflict)
    {
      if exists id :: id in actions && Collides(actions[id].action, action) {
        var id :| id in actions && Collides(actions[id].action, action);
        LookupIrrelevant(State(), action, id);
        return true, if actions[id].action == action then Ok(OfAction(actions[id])) else Err(IdempotencyConflict);
      }
      return false, Err(NotFound);
    }

    method Book(action: PreparedAction, evidence: AdmissionEvidence, chain: seq<ScopeRecord>, now: int)
      returns (r: Result<Reply, StoreError>)
      requires StoredRows(scopes, chain)
      modifies this`scopes, this`actions, this`events
      ensures var record := ActionRecord(action, checks.actionDigest(action), evidence, now, None, None, Reserved);
        var charged := old(State()).(
          scopes := ChargeAll(old(scopes), chain, action.resource), actions := old(actions)[action.actionId := record]);
        var tx := Log(charged, OfAction(record), action.scopeId, Some(action.actionId), AttemptCharged, Some(now),
                      record.digest);
        r == tx.reply && (r.Ok? ==> State() == tx.ledger)
    {
      ChargeChain(chain, action.resource);
      var record := ActionRecord(action, checks.actionDigest(action), evidence, now, None, None, Reserved);
      actions := actions[action.actionId := record];
      var full := AppendEvent(action.scopeId, Some(action.actionId), AttemptCharged, Some(now), record.digest);
      if full.Some? { return Err(full.value); }
      return Ok(OfAction(record));
    }

    method ReserveBody(action: PreparedAction, evidence: AdmissionEvidence, guard: Guard, now: int)
      returns (r: Result<Reply, StoreError>)
      requires Keyed(State())
      modifies this`scopes, this`actions, this`events
      ensures r == ReserveTx(checks, old(State()), action, evidence, guard, now).reply
      ensures r.Ok? ==> State() == ReserveTx(checks, old(State()), action, evidence, guard, now).ledger
    {
      var found, answer := FindDuplicate(action);
      if found { return answer; }
      var chain := ReadActiveChain(checks, scopes, action.scopeId, now);
      if chain.Err? { return Err(chain.error); }
      var unfit := checks.admits(evidence, chain.value[0].grant, action, now);
      if unfit.Some? { return Err(Validation(unfit.value)); }
      var refused := guard.verifyAction(chain.value[0].grant, action, evidence, now);
      if refused.Some? { return Err(Authority(refused.value)); }
      for i := 0 to |chain.value|
        invariant forall k :: 0 <= k < i ==> HasRoom(chain.value[k], action.resource)
      {
        if !HasRoom(chain.value[i], action.resource) { return Err(BudgetExceeded); }
      }
      r := Book(action, evidence, chain.value, now);
    }

    method ClaimBody(id: string, expectedDigest: string, guard: Guard, now: int) returns (r: Result<Reply, StoreError>)
      modifies this`actions, this`events
      ensures r == ClaimTx(checks, old(State()), id, expectedDigest, guard, now).reply
      ensures r.Ok? ==> State() == ClaimTx(checks, old(State()), id, expectedDigest, guard, now).ledger
    {
      var l := Ledger(owner, lastSeen, scopes, actions, events);
      var loaded := LoadAction(checks, l, id);
      if loaded.Err? { return Err(loaded.error); }
      var record := loaded.value;
      if record.digest != expectedDigest { return Err(IdempotencyConflict); }
      if !record.state.Reserved? { return Err(Consumed); }
      var chain := ReadActiveChain(checks, scopes, record.action.scopeId, now);
      if chain.Err? { return Err(chain.error); }
      var unfit := checks.admits(record.evidence, chain.value[0].grant, record.action, now);
      if unfit.Some? { return Err(Validation(unfit.value)); }
      var refused := guard.verifyAction(chain.value[0].grant, record.action, record.evidence, now);
      if refused.Some? { return Err(Authority(refused.value)); }
      record := record.(state := DispatchClaimed, dispatchClaimedAt := Some(now));
      actions := actions[id := record];
      var full := AppendEvent(record.action.scopeId, Some(id), ClaimRecorded, Some(now), record.digest);
      if full.Some? { return Err(full.value); }
      return Ok(OfAction(record));
    }

    method FinishBody(id: string, outcome: Outcome, now: int) returns (r: Result<Reply, StoreError>)
      modifies this`actions, this`events
      ensures r == FinishTx(checks, old(State()), id, outcome, now).reply
      ensures r.Ok? ==> State() == FinishTx(checks, old(State()), id, outcome, now).ledger
    {
      var l := Ledger(owner, lastSeen, scopes, actions, events);
      var loaded := LoadAction(checks, l, id);
      if loaded.Err? { return Err(loaded.error); }
      var record := loaded.value;
      if !Pending(record) || (outcome.Accepted? && !record.state.DispatchClaimed?) { return Err(InvalidTransition); }
      record := record.(state := FinalState(outcome), finishedAt := Some(now));
      actions := actions[id := record];
      var full := AppendEvent(record.action.scopeId, Some(id), AttemptFinished, Some(now), record.digest);
      if full.Some? { return Err(full.value); }
      return Ok(OfAction(record));
    }

    method RevokeBody(id: string, now: int) returns (r: Result<Reply, StoreError>)
      modifies this`scopes, this`events
      ensures r == RevokeTx(checks, old(State()), id, now).reply
      ensures r.Ok? ==> State() == RevokeTx(checks, old(State()), id, now).ledger
    {
      var loaded := LoadScope(checks, scopes, id);
      if loaded.Err? { return Err(loaded.error); }
      var record := loaded.value;
      if record.revokedAt.None? {
        record := record.(revokedAt := Some(now));
        SaveScope(record);
        var full := AppendEvent(id, None, ScopeRevoked, Some(now), record.digest);
        if full.Some? { return Err(full.value); }
      }
      return Ok(OfScope(record));
    }

    // ---------------------------------------------------------------- calls

    /** Observe the time; nothing else has happened yet. */
    method Begin(now: int) returns (e: Option<StoreError>)
      modifies this`lastSeen
      ensures e.Some? ==> State() == old(State())
      ensures e.None? ==> State() == old(State()).(lastSeen := now)
      ensures e == if Metadata(checks, old(State())).Some? then Metadata(checks, old(State()))
        else if now < old(lastSeen) then Some(ClockRollback) else None
    {
      if !checks.ownerOk(owner) { return Some(Validation(Invalid)); }
      if lastSeen < 0 { return Some(Corrupt); }
      if now < lastSeen { return Some(ClockRollback); }
      lastSeen := now;
      return None;
    }

    /** Run one call: the savepoint is the copy of the tables taken after the time is observed. */
    method Transact(call: Call) returns (r: Result<Reply, StoreError>)
      requires Keyed(State())
      modifies this
      ensures Tx(State(), r) == Mutate(checks, old(State()), call)
    {
      var refused := Begin(call.now);
      if refused.Some? { return Err(refused.value); }
      var savedScopes, savedActions, savedEvents := scopes, actions, events;
      match call {
        case IssueScope(grant, guard, now) => r := IssueBody(grant, guard, now);
        case Reserve(action, evidence, guard, now) => r := ReserveBody(action, evidence, guard, now);
        case ClaimDispatch(id, digest, guard, now) => r := ClaimBody(id, digest, guard, now);
        case Finish(id, outcome, now) => r := FinishBody(id, outcome, now);
        case Revoke(id, now) => r := RevokeBody(id, now);
      }
      if r.Err? { scopes, actions, events := savedScopes, savedActions, savedEvents; }
    }

    /** Every public call leaves exactly the tables and reply of `Apply`, and a consistent ledger. */
    method Invoke(call: Call) returns (r: Result<Reply, StoreError>)
      requires Valid()
      modifies this
      ensures Tx(State(), r) == Apply(checks, old(State()), call)
      ensures Valid()
    {
      ApplyKept(checks, State(), call);
      match call {
        case IssueScope(grant, guard, now) =>
          var g := checks.canonGrant(grant);
          if g.Err? { return Err(Validation(g.error)); }
          if g.value.owner != owner { return Err(OwnerMismatch); }
          r := Transact(call.(grant := g.value));
        case Reserve(action, evidence, guard, now) =>
          var a := checks.canonAction(action);
          if a.Err? { return Err(Validation(a.error)); }
          if a.value.owner != owner { return Err(OwnerMismatch); }
          r := Transact(call.(action := a.value));
        case _ => r := Transact(call);
      }
    }

    // ---------------------------------------------------------------- opening and export

    /** An unfinished attempt becomes UNKNOWN and leaves its event; any other row is skipped. */
    method InterruptOne(row: ActionRecord) returns (e: Option<StoreError>)
      requires ActionKey(row) in actions && actions[ActionKey(row)] == row
      modifies this`actions, this`events
      ensures e.None? <==> Interrupt(old(State()), ActionKey(row)).reply.Ok?
      ensures e.None? ==> State() == Interrupt(old(State()), ActionKey(row)).ledger
      ensures actions - {ActionKey(row)} == old(actions) - {ActionKey(row)}
    {
      if !Pending(row) { return None; }
      var interrupted := row.(state := Unknown);
      actions := actions[ActionKey(row) := interrupted];
      e := AppendEvent(row.action.scopeId, Some(ActionKey(row)), Interrupted, None, row.digest);
    }

    /** Recover in id order, stopping at the first attempt that cannot be logged. */
    method InterruptAll(rows: seq<ActionRecord>, ghost ids: seq<string>) returns (e: Option<StoreError>)
      requires Rising(ids) && (forall id :: id in ids ==> id in actions) && rows == Select(actions, ids)
      requires forall id :: id in actions ==> ActionKey(actions[id]) == id
      modifies this`actions, this`events
      ensures e.None? <==> Recover(old(State()), ids).Ok?
      ensures e.None? ==> State() == Recover(old(State()), ids).value
    {
      ghost var before := State();
      for i := 0 to |rows|
        invariant Recover(before, ids[..i]) == Ok(State())
        invariant forall k :: i <= k < |ids| ==>
          ids[k] in actions && actions[ids[k]] == rows[k] && ActionKey(rows[k]) == ids[k]
      {
        assert ids[..i + 1][..i] == ids[..i];
        ghost var held := actions;
        e := InterruptOne(rows[i]);
        if e.Some? {
          StuckRecovery(before, ids, i + 1);
          return;
        }
        RestUntouched(held, actions, ids, rows, i);
      }
      assert ids[..|ids|] == ids;
      return None;
    }

    /** Recover every unfinished attempt in one transaction. */
    method RecoverAll(rows: seq<ActionRecord>) returns (e: Option<StoreError>)
      requires Keyed(State()) && rows == Select(actions, Listing(actions.Keys))
      modifies this`actions, this`events
      ensures e.None? <==> Recover(old(State()), Listing(old(actions).Keys)).Ok?
      ensures e.None? ==> State() == Recover(old(State()), Listing(old(actions).Keys)).value
      ensures e.Some? ==> State() == old(State())
    {
      var heldActions, heldEvents := actions, events;
      e := InterruptAll(rows, Listing(actions.Keys));
      if e.Some? { actions, events := heldActions, heldEvents; }
    }

    /** Check the whole ledger, then recover it: either everything is committed or nothing is. */
    method Open(expected: AuthorityOwner) returns (e: Option<StoreError>)
      requires Lawful(checks)
      modifies this
      ensures e.None? <==> ScopeLedger.Open(checks, old(State()), expected).Ok?
      ensures e.None? ==> State() == ScopeLedger.Open(checks, old(State()), expected).value && Valid()
      ensures e.Some? ==> State() == old(State())
      ensures Unwelcome(checks, old(State()), expected).Some? ==> e == Unwelcome(checks, old(State()), expected)
    {
      OpenedConsistent(checks, State(), expected);
      var checked := CheckOpen(checks, Ledger(owner, lastSeen, scopes, actions, events), expected);
      if checked.Err? { return Some(checked.error); }
      e := RecoverAll(checked.value);
    }

    /** Exporting an open ledger fails for its size only; the evidence describes it exactly. */
    method ExportEvidence(rowBytes: Ledger -> nat, encodedBytes: Evidence -> nat)
      returns (r: Result<Evidence, StoreError>)
      requires Valid()
      ensures r.Ok? ==> Listed(r.value) && AsLedger(r.value) == State()
      ensures r.Ok? ==> rowBytes(State()) <= MAX_EXPORT_BYTES && encodedBytes(r.value) <= MAX_EXPORT_BYTES
      ensures r.Err? ==> r.error == Corrupt
      ensures r.Err? ==>
        || rowBytes(State()) > MAX_EXPORT_BYTES
        || exists e :: Listed(e) && AsLedger(e) == State() && encodedBytes(e) > MAX_EXPORT_BYTES
    {
      var l := Ledger(owner, lastSeen, scopes, actions, events);
      if rowBytes(l) > MAX_EXPORT_BYTES { return Err(Corrupt); }
      ConsistentReadsBack(checks, l);
      r := ReadEvidence(checks, l);
      var valid := ScopeValidation.Validate(checks, r.value);
      if !valid || encodedBytes(r.value) > MAX_EXPORT_BYTES { r := Err(Corrupt); }
    }
  }
}
