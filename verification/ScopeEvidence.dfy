/** Portable evidence: the offline validator accepts exactly the consistent ledgers. */
module ScopeEvidence {
  import opened Wrappers
  import opened Order
  import opened ScopeTypes
  import opened ScopeForest
  import opened ScopeConsistency
  import opened ScopeChargeSteps

  /** Complete retained state of one owner; rows are listed by ascending id. */
  datatype Evidence = Evidence(
    schemaVersion: nat, owner: AuthorityOwner, lastSeen: int,
    scopes: seq<ScopeRecord>, actions: seq<ActionRecord>, events: seq<AuthorityEvent>)

  function ScopeKey(r: ScopeRecord): string { r.grant.scopeId }
  function ActionKey(r: ActionRecord): string { r.action.actionId }

  /** The ledger a piece of evidence describes. */
  function AsLedger(e: Evidence): Ledger {
    Ledger(e.owner, e.lastSeen, Table(ScopeKey, e.scopes), Table(ActionKey, e.actions), e.events)
  }

  ghost predicate Listed(e: Evidence) {
    e.schemaVersion == 1 && RisingBy(ScopeKey, e.scopes) && RisingBy(ActionKey, e.actions)
  }

  // ------------------------------------------------------------------ canonical rows

  predicate CanonicalScope(c: Contracts, r: ScopeRecord) {
    c.canonGrant(r.grant) == Ok(r.grant) && r.digest == c.grantDigest(r.grant)
  }

  predicate CanonicalAction(c: Contracts, r: ActionRecord) {
    c.canonAction(r.action) == Ok(r.action) && r.digest == c.actionDigest(r.action)
  }

  function RequestOf(a: PreparedAction): (string, string, string) { (a.scopeId, a.subject, a.requestId) }

  ghost predicate RequestsDistinct(rows: seq<ActionRecord>, n: nat)
    requires n <= |rows|
  {
    forall i, j :: 0 <= i < j < n ==> !SameRequest(rows[i].action, rows[j].action)
  }

  method CheckScopeRows(c: Contracts, rows: seq<ScopeRecord>) returns (ok: bool)
    ensures ok <==> forall i :: 0 <= i < |rows| ==> CanonicalScope(c, rows[i])
  {
    for i := 0 to |rows|
      invariant forall k :: 0 <= k < i ==> CanonicalScope(c, rows[k])
    {
      if !CanonicalScope(c, rows[i]) { return false; }
    }
    return true;
  }

  method CheckActionRows(c: Contracts, rows: seq<ActionRecord>) returns (ok: bool)
    ensures ok <==> forall i :: 0 <= i < |rows| ==> CanonicalAction(c, rows[i])
  {
    for i := 0 to |rows|
      invariant forall k :: 0 <= k < i ==> CanonicalAction(c, rows[k])
    {
      if !CanonicalAction(c, rows[i]) { return false; }
    }
    return true;
  }

  method CheckRequests(rows: seq<ActionRecord>) returns (ok: bool)
    ensures ok <==> RequestsDistinct(rows, |rows|)
  {
    var requests: set<(string, string, string)> := {};
    for i := 0 to |rows|
      invariant forall q :: q in requests <==> exists k :: 0 <= k < i && RequestOf(rows[k].action) == q
      invariant RequestsDistinct(rows, i)
    {
      var request := RequestOf(rows[i].action);
      if request in requests {
        ghost var k :| 0 <= k < i && RequestOf(rows[k].action) == request;
        assert SameRequest(rows[k].action, rows[i].action);
        return false;
      }
      requests := requests + {request};
    }
    return true;
  }

  /** The first pass: every row canonical under its digest, no request identity twice. */
  method CheckRows(c: Contracts, e: Evidence) returns (ok: bool)
    ensures ok <==>
      && (forall i :: 0 <= i < |e.scopes| ==> CanonicalScope(c, e.scopes[i]))
      && (forall i :: 0 <= i < |e.actions| ==> CanonicalAction(c, e.actions[i]))
      && RequestsDistinct(e.actions, |e.actions|)
  {
    ok := CheckScopeRows(c, e.scopes);
    if ok { ok := CheckActionRows(c, e.actions); }
    if ok { ok := CheckRequests(e.actions); }
  }

  // ------------------------------------------------------------------ ancestry

  /** The validator's own climb to the root, on a table already known to be canonical. */
  function Climb(scopes: Scopes, id: string, chain: seq<ScopeRecord>): (r: Option<seq<ScopeRecord>>)
    ensures r.Some? ==> |r.value| > |chain|
    decreases MAX_DEPTH + 1 - |chain|
  {
    if |chain| > MAX_DEPTH || Visited(chain, id) || id !in scopes then None
    else
      match scopes[id].grant.parentId
      case None => Some(chain + [scopes[id]])
      case Some(p) => Climb(scopes, p, chain + [scopes[id]])
  }

  function AncestryOf(c: Contracts, scopes: Scopes, id: string): (r: Option<seq<ScopeRecord>>)
    ensures r.Some? ==> |r.value| > 0
  {
    match Climb(scopes, id, [])
    case None => None
    case Some(chain) => if Links(c, chain).Some? then None else Some(chain)
  }

  method Ancestry(c: Contracts, scopes: Scopes, id: string) returns (chain: Option<seq<ScopeRecord>>)
    ensures chain == AncestryOf(c, scopes, id)
  {
    var result: seq<ScopeRecord> := [];
    var current := Some(id);
    while current.Some?
      invariant |result| <= MAX_DEPTH + 1
      invariant current.Some? ==> Climb(scopes, id, []) == Climb(scopes, current.value, result)
      invariant current.None? ==> Climb(scopes, id, []) == Some(result)
      decreases MAX_DEPTH + 2 - |result|, current.Some?
    {
      if |result| > MAX_DEPTH || Visited(result, current.value) || current.value !in scopes { return None; }
      var record := scopes[current.value];
      current := record.grant.parentId;
      result := result + [record];
    }
    var i := 0;
    while i + 1 < |result|
      invariant 0 <= i <= |result|
      invariant Links(c, result) == Links(c, result[i..])
    {
      if c.childOf(result[i].grant, result[i + 1].grant).Some? { return None; }
      assert result[i..][1..] == result[i + 1..];
      i := i + 1;
    }
    return Some(result);
  }

  ghost predicate CanonicalTable(c: Contracts, scopes: Scopes) {
    forall id :: id in scopes ==> scopes[id].grant.scopeId == id && CanonicalScope(c, scopes[id])
  }

  lemma {:induction false} ClimbIsWalk(c: Contracts, scopes: Scopes, id: string, chain: seq<ScopeRecord>)
    requires CanonicalTable(c, scopes)
    ensures Climb(scopes, id, chain).Some? <==> Walk(c, scopes, id, chain).Ok?
    ensures Climb(scopes, id, chain).Some? ==> Walk(c, scopes, id, chain) == Ok(Climb(scopes, id, chain).value)
    decreases MAX_DEPTH + 1 - |chain|
  {
    if |chain| <= MAX_DEPTH && !Visited(chain, id) && id in scopes {
      assert LoadScope(c, scopes, id) == Ok(scopes[id]);
      if scopes[id].grant.parentId.Some? {
        ClimbIsWalk(c, scopes, scopes[id].grant.parentId.value, chain + [scopes[id]]);
      }
    }
  }

  lemma AncestryIsChain(c: Contracts, scopes: Scopes, id: string)
    requires CanonicalTable(c, scopes)
    ensures AncestryOf(c, scopes, id).Some? <==> Chain(c, scopes, id).Ok?
    ensures AncestryOf(c, scopes, id).Some? ==> Chain(c, scopes, id) == Ok(AncestryOf(c, scopes, id).value)
  {
    ClimbIsWalk(c, scopes, id, []);
  }

  // ------------------------------------------------------------------ scopes

  /** The conditions on a scope and the ancestors above it, as the validator tests them. */
  predicate ChainFits(owner: AuthorityOwner, lastSeen: int, chain: seq<ScopeRecord>)
    requires |chain| > 0
  {
    var s := chain[0];
    && s.grant.owner == owner
    && 0 <= s.issuedAt <= lastSeen
    && s.issuedAt < s.grant.expiresAt
    && (s.revokedAt.Some? ==> s.issuedAt <= s.revokedAt.value <= lastSeen)
    && s.chargedAttempts <= s.grant.maxChargedAttempts
    && |s.chargedResources| <= s.grant.maxDistinctResources
    && (forall i :: 0 < i < |chain| ==> chain[i].issuedAt <= s.issuedAt && InsideAt(chain[i], s.issuedAt))
  }

  /** At that time the scope was inside its window and not revoked before. */
  predicate InsideAt(r: ScopeRecord, t: int) {
    t >= r.grant.notBefore && t < r.grant.expiresAt && (r.revokedAt.None? || r.revokedAt.value >= t)
  }

  predicate ScopeChecked(c: Contracts, l: Ledger, id: string) {
    AncestryOf(c, l.scopes, id).Some? && ChainFits(l.owner, l.lastSeen, AncestryOf(c, l.scopes, id).value)
  }

  method CheckScopes(c: Contracts, l: Ledger, rows: seq<ScopeRecord>) returns (ok: bool)
    ensures ok <==> forall i :: 0 <= i < |rows| ==> ScopeChecked(c, l, ScopeKey(rows[i]))
  {
    for i := 0 to |rows|
      invariant forall k :: 0 <= k < i ==> ScopeChecked(c, l, ScopeKey(rows[k]))
    {
      var chain := Ancestry(c, l.scopes, ScopeKey(rows[i]));
      if chain.None? || !ChainFits(l.owner, l.lastSeen, chain.value) { return false; }
    }
    return true;
  }

  /** A scope whose climb succeeds has its parent in the table and is narrower than it. */
  lemma CheckedSound(c: Contracts, scopes: Scopes, id: string)
    requires CanonicalTable(c, scopes) && id in scopes && AncestryOf(c, scopes, id).Some?
    ensures SoundScope(c, scopes, id)
  {
    if scopes[id].grant.parentId.Some? {
      var p := scopes[id].grant.parentId.value;
      assert [] + [scopes[id]] == [scopes[id]];
      assert Climb(scopes, id, []) == Climb(scopes, p, [scopes[id]]);
      ClimbStarts(scopes, p, [scopes[id]]);
      var chain := AncestryOf(c, scopes, id).value;
      assert chain[0] == scopes[id] && chain[1] == scopes[p];
    }
  }

  lemma {:induction false} ClimbStarts(scopes: Scopes, id: string, chain: seq<ScopeRecord>)
    requires Climb(scopes, id, chain).Some?
    ensures id in scopes && chain + [scopes[id]] <= Climb(scopes, id, chain).value
    decreases MAX_DEPTH + 1 - |chain|
  {
    if scopes[id].grant.parentId.Some? {
      ClimbStarts(scopes, scopes[id].grant.parentId.value, chain + [scopes[id]]);
    }
  }

  lemma ChainRowFits(l: Ledger, id: string)
    requires Forest(l.scopes) && id in l.scopes
    ensures ScopeRow(l, id) <==> ChainFits(l.owner, l.lastSeen, Rows(l.scopes, Line(l.scopes, id)))
  {
    var ids := Line(l.scopes, id);
    var rows := Rows(l.scopes, ids);
    if ScopeRow(l, id) {
      forall i | 0 < i < |rows| ensures CouldDelegate(rows[i], rows[0].issuedAt) {
        LineDistinct(l.scopes, id, i);
        assert Above(l.scopes, ids[i], id);
      }
    }
    if ChainFits(l.owner, l.lastSeen, rows) {
      forall a | Above(l.scopes, a, id) && a != id ensures CouldDelegate(l.scopes[a], l.scopes[id].issuedAt) {
        var i :| 0 <= i < |ids| && ids[i] == a;
        assert CouldDelegate(rows[i], rows[0].issuedAt);
      }
    }
  }

  lemma LineDistinct(scopes: Scopes, id: string, i: nat)
    requires Forest(scopes) && id in scopes && 0 < i < |Line(scopes, id)|
    ensures Line(scopes, id)[i] != id
  {
    LineParent(scopes, id);
    var p := scopes[id].grant.parentId.value;
    assert Line(scopes, p)[i - 1] == Line(scopes, id)[i];
    AboveDelegations(scopes, Line(scopes, id)[i], p);
  }

  lemma CheckedRow(c: Contracts, l: Ledger, id: string)
    requires Lawful(c) && CanonicalTable(c, l.scopes) && SoundScopes(c, l.scopes) && Forest(l.scopes) && id in l.scopes
    ensures ScopeChecked(c, l, id) <==> ScopeRow(l, id)
  {
    AncestryIsChain(c, l.scopes, id);
    ChainIsLine(c, l.scopes, id);
    ChainRowFits(l, id);
  }

  /** All scopes pass exactly when the table is a sound forest whose rows are in order. */
  lemma ScopesChecked(c: Contracts, l: Ledger)
    requires Lawful(c) && CanonicalTable(c, l.scopes)
    ensures (forall id :: id in l.scopes ==> ScopeChecked(c, l, id)) <==>
      SoundScopes(c, l.scopes) && Forest(l.scopes) && forall id :: id in l.scopes ==> ScopeRow(l, id)
  {
    if forall id :: id in l.scopes ==> ScopeChecked(c, l, id) {
      forall id | id in l.scopes ensures SoundScope(c, l.scopes, id) {
        assert ScopeChecked(c, l, id);
        CheckedSound(c, l.scopes, id);
      }
      SoundForest(c, l.scopes);
      forall id | id in l.scopes ensures ScopeRow(l, id) {
        assert ScopeChecked(c, l, id);
        CheckedRow(c, l, id);
      }
    }
    if SoundScopes(c, l.scopes) && Forest(l.scopes) && forall id :: id in l.scopes ==> ScopeRow(l, id) {
      forall id | id in l.scopes ensures ScopeChecked(c, l, id) {
        assert ScopeRow(l, id);
        CheckedRow(c, l, id);
      }
    }
  }

  // ------------------------------------------------------------------ actions

  predicate ChainOpenAt(chain: seq<ScopeRecord>, t: int) {
    forall i :: 0 <= i < |chain| ==> InsideAt(chain[i], t)
  }

  /** The conditions on an action and the scopes above it, as the validator tests them. */
  predicate ActionFits(c: Contracts, owner: AuthorityOwner, lastSeen: int, r: ActionRecord, chain: seq<ScopeRecord>)
    requires |chain| > 0
  {
    && c.admits(r.evidence, chain[0].grant, r.action, r.reservedAt).None?
    && (r.dispatchClaimedAt.Some? ==>
          var at := r.dispatchClaimedAt.value;
          && c.admits(r.evidence, chain[0].grant, r.action, at).None?
          && ChainOpenAt(chain, at)
          && r.reservedAt <= at <= lastSeen && at < r.evidence.expiresAt)
    && r.action.owner == owner
    && chain[0].issuedAt <= r.reservedAt <= lastSeen
    && (r.finishedAt.Some? ==>
          && (if r.dispatchClaimedAt.Some? then r.dispatchClaimedAt.value else r.reservedAt) <= r.finishedAt.value
          && r.finishedAt.value <= lastSeen)
    && ChainOpenAt(chain, r.reservedAt)
    && StateValid(r)
  }

  /** The timestamps each execution state allows. */
  predicate StateValid(r: ActionRecord) {
    if r.state.Reserved? then r.dispatchClaimedAt.None? && r.finishedAt.None?
    else if r.state.DispatchClaimed? then r.dispatchClaimedAt.Some? && r.finishedAt.None?
    else if r.state.ApiAccepted? then r.dispatchClaimedAt.Some? && r.finishedAt.Some?
    else r.state.Unknown? || r.finishedAt.Some?
  }

  predicate ActionChecked(c: Contracts, l: Ledger, r: ActionRecord) {
    && AncestryOf(c, l.scopes, r.action.scopeId).Some?
    && ActionFits(c, l.owner, l.lastSeen, r, AncestryOf(c, l.scopes, r.action.scopeId).value)
  }

  lemma ChainOpenIsLine(scopes: Scopes, id: string, t: int)
    requires Forest(scopes) && id in scopes
    ensures ChainOpenAt(Rows(scopes, Line(scopes, id)), t) <==> LineOpenAt(scopes, id, t)
  {
    var ids := Line(scopes, id);
    var rows := Rows(scopes, ids);
    if ChainOpenAt(rows, t) {
      forall a | Above(scopes, a, id) ensures OpenAt(scopes[a], t) {
        var i :| 0 <= i < |ids| && ids[i] == a;
        assert OpenAt(rows[i], t);
      }
    }
    if LineOpenAt(scopes, id, t) {
      forall i | 0 <= i < |rows| ensures OpenAt(rows[i], t) { assert Above(scopes, ids[i], id); }
    }
  }

  /** On a sound forest an action passes exactly when its row is in order. */
  lemma CheckedAction(c: Contracts, l: Ledger, id: string)
    requires Lawful(c) && CanonicalTable(c, l.scopes) && SoundScopes(c, l.scopes) && Forest(l.scopes)
    requires id in l.actions && ActionKey(l.actions[id]) == id && CanonicalAction(c, l.actions[id])
    ensures ActionChecked(c, l, l.actions[id]) <==> ActionRow(c, l, id)
  {
    var r := l.actions[id];
    AncestryIsChain(c, l.scopes, r.action.scopeId);
    ChainIsLine(c, l.scopes, r.action.scopeId);
    if r.action.scopeId in l.scopes {
      ChainOpenIsLine(l.scopes, r.action.scopeId, r.reservedAt);
      if r.dispatchClaimedAt.Some? { ChainOpenIsLine(l.scopes, r.action.scopeId, r.dispatchClaimedAt.value); }
      assert Rows(l.scopes, Line(l.scopes, r.action.scopeId))[0] == l.scopes[r.action.scopeId];
    }
  }

  type Tally = map<string, (nat, set<string>)>

  /** What the first rows of the listing charge to each scope. */
  ghost predicate Tallied(l: Ledger, actions: map<string, ActionRecord>, tally: Tally)
    requires Forest(l.scopes)
  {
    && tally.Keys == l.scopes.Keys
    && forall s :: s in l.scopes ==>
       tally[s] == (|Under(l.(actions := actions), s)|, Touched(l.(actions := actions), s))
  }

  /** Count one action against every scope of its chain. */
  method CountOne(tally: Tally, chain: seq<ScopeRecord>, resource: string) returns (after: Tally)
    requires forall i, j :: 0 <= i < j < |chain| ==> chain[i].grant.scopeId != chain[j].grant.scopeId
    requires forall i :: 0 <= i < |chain| ==> chain[i].grant.scopeId in tally
    ensures after.Keys == tally.Keys
    ensures forall s :: s in tally ==>
      after[s] == if Visited(chain, s) then (tally[s].0 + 1, tally[s].1 + {resource}) else tally[s]
  {
    after := tally;
    for k := 0 to |chain|
      invariant after.Keys == tally.Keys
      invariant forall s :: s in tally ==>
        after[s] == if Visited(chain[..k], s) then (tally[s].0 + 1, tally[s].1 + {resource}) else tally[s]
    {
      var id := chain[k].grant.scopeId;
      VisitedStep(chain, k);
      after := after[id := (after[id].0 + 1, after[id].1 + {resource})];
    }
    assert chain[..|chain|] == chain;
  }

  lemma VisitedStep(chain: seq<ScopeRecord>, k: nat)
    requires k < |chain|
    requires forall i, j :: 0 <= i < j < |chain| ==> chain[i].grant.scopeId != chain[j].grant.scopeId
    ensures !Visited(chain[..k], chain[k].grant.scopeId)
    ensures forall s :: Visited(chain[..k + 1], s) <==> Visited(chain[..k], s) || s == chain[k].grant.scopeId
  {
    assert chain[..k + 1] == chain[..k] + [chain[k]];
    forall s | Visited(chain[..k + 1], s) ensures Visited(chain[..k], s) || s == chain[k].grant.scopeId {
      var i :| 0 <= i < |chain[..k + 1]| && chain[..k + 1][i].grant.scopeId == s;
      if i < k { assert chain[..k][i].grant.scopeId == s; }
    }
    forall s | Visited(chain[..k], s) ensures Visited(chain[..k + 1], s) {
      var i :| 0 <= i < k && chain[..k][i].grant.scopeId == s;
      assert chain[..k + 1][i].grant.scopeId == s;
    }
    assert chain[..k + 1][k] == chain[k];
  }

  lemma LineRowsDistinct(scopes: Scopes, id: string)
    requires Forest(scopes) && id in scopes
    ensures var rows := Rows(scopes, Line(scopes, id));
      && (forall i :: 0 <= i < |rows| ==> rows[i].grant.scopeId in scopes)
      && (forall i, j :: 0 <= i < j < |rows| ==> rows[i].grant.scopeId != rows[j].grant.scopeId)
      && (forall s :: Visited(rows, s) <==> Above(scopes, s, id))
    decreases |Line(scopes, id)|
  {
    var ids := Line(scopes, id);
    var rows := Rows(scopes, ids);
    forall i, j | 0 <= i < j < |rows| ensures rows[i].grant.scopeId != rows[j].grant.scopeId {
      LineRises(scopes, id, i, j);
    }
    forall s ensures Visited(rows, s) <==> Above(scopes, s, id) {
      if Visited(rows, s) { var i :| 0 <= i < |rows| && rows[i].grant.scopeId == s; }
      if Above(scopes, s, id) {
        var i :| 0 <= i < |ids| && ids[i] == s;
        assert rows[i].grant.scopeId == s;
      }
    }
  }

  /** Along a line, delegations strictly rise. */
  lemma {:induction false} LineRises(scopes: Scopes, id: string, i: nat, j: nat)
    requires Forest(scopes) && id in scopes && i < j < |Line(scopes, id)|
    ensures scopes[Line(scopes, id)[i]].grant.delegationsRemaining
      < scopes[Line(scopes, id)[j]].grant.delegationsRemaining
    decreases |Line(scopes, id)|
  {
    LineParent(scopes, id);
    var p := scopes[id].grant.parentId.value;
    if i == 0 {
      var a := Line(scopes, id)[j];
      assert a == Line(scopes, p)[j - 1];
      AboveDelegations(scopes, a, p);
    } else {
      LineRises(scopes, p, i - 1, j - 1);
    }
  }

  lemma TableGrows(rows: seq<ActionRecord>, i: nat)
    requires RisingBy(ActionKey, rows) && i < |rows|
    ensures Table(ActionKey, rows[..i + 1]) == Table(ActionKey, rows[..i])[ActionKey(rows[i]) := rows[i]]
    ensures ActionKey(rows[i]) !in Table(ActionKey, rows[..i])
  {
    assert rows[..i + 1][..i] == rows[..i];
    if ActionKey(rows[i]) in Table(ActionKey, rows[..i]) {
      var k := TableFrom(ActionKey, rows[..i], ActionKey(rows[i]));
      RisingByFar(ActionKey, rows, k, i);
    }
  }

  lemma TallyStep(l: Ledger, before: map<string, ActionRecord>, r: ActionRecord, tally: Tally, after: Tally)
    requires Forest(l.scopes) && r.action.scopeId in l.scopes && ActionKey(r) !in before
    requires forall x :: x in before ==> before[x].action.scopeId in l.scopes
    requires Tallied(l, before, tally)
    requires after.Keys == tally.Keys
    requires forall s :: s in tally ==>
      after[s] ==
        if Above(l.scopes, s, r.action.scopeId) then (tally[s].0 + 1, tally[s].1 + {r.action.resource}) else tally[s]
    ensures Tallied(l, before[ActionKey(r) := r], after)
  {
    var a, b := l.(actions := before), l.(actions := before[ActionKey(r) := r]);
    forall s | s in l.scopes ensures after[s] == (|Under(b, s)|, Touched(b, s)) {
      TallyOne(a, b, r, s);
    }
  }

  lemma TallyOne(a: Ledger, b: Ledger, r: ActionRecord, s: string)
    requires Forest(a.scopes) && b.scopes == a.scopes && s in a.scopes
    requires r.action.scopeId in a.scopes && ActionKey(r) !in a.actions && b.actions == a.actions[ActionKey(r) := r]
    requires forall x :: x in a.actions ==> a.actions[x].action.scopeId in a.scopes
    ensures |Under(b, s)| == |Under(a, s)| + (if Above(a.scopes, s, r.action.scopeId) then 1 else 0)
    ensures Touched(b, s) ==
      if Above(a.scopes, s, r.action.scopeId) then Touched(a, s) + {r.action.resource} else Touched(a, s)
  {
    AddedUnder(a, b, r, s);
    AddedTouched(a, b, r, s);
  }

  lemma EmptyTally(l: Ledger, tally: Tally)
    requires Forest(l.scopes) && tally == map s | s in l.scopes :: (0, {})
    ensures Tallied(l, map[], tally)
  {
    var a := l.(actions := map[]);
    forall s | s in l.scopes ensures Under(a, s) == {} && Touched(a, s) == {} {}
  }

  ghost predicate ScopesPass(c: Contracts, l: Ledger) {
    Lawful(c) && CanonicalTable(c, l.scopes) && SoundScopes(c, l.scopes) && Forest(l.scopes)
  }

  /** Check one action and charge it to its whole ancestry. */
  method CheckAction(c: Contracts, l: Ledger, r: ActionRecord, tally: Tally, ghost done: map<string, ActionRecord>)
    returns (ok: bool, after: Tally)
    requires ScopesPass(c, l) && ActionKey(r) !in done
    requires forall x :: x in done ==> done[x].action.scopeId in l.scopes
    requires Tallied(l, done, tally)
    ensures ok <==> ActionChecked(c, l, r)
    ensures ok ==> r.action.scopeId in l.scopes && Tallied(l, done[ActionKey(r) := r], after)
  {
    var chain := Ancestry(c, l.scopes, r.action.scopeId);
    if chain.None? || !ActionFits(c, l.owner, l.lastSeen, r, chain.value) { return false, tally; }
    AncestryIsLine(c, l, r.action.scopeId);
    LineRowsDistinct(l.scopes, r.action.scopeId);
    after := CountOne(tally, chain.value, r.action.resource);
    TallyStep(l, done, r, tally, after);
    ok := true;
  }

  ghost predicate AllChecked(c: Contracts, l: Ledger, rows: seq<ActionRecord>)
    decreases |rows|
  {
    rows == [] || (AllChecked(c, l, rows[..|rows| - 1]) && ActionChecked(c, l, rows[|rows| - 1]))
  }

  lemma {:induction false} AllCheckedRows(c: Contracts, l: Ledger, rows: seq<ActionRecord>)
    ensures AllChecked(c, l, rows) <==> forall i :: 0 <= i < |rows| ==> ActionChecked(c, l, rows[i])
    decreases |rows|
  {
    if rows != [] {
      AllCheckedRows(c, l, rows[..|rows| - 1]);
      assert rows == rows[..|rows| - 1] + [rows[|rows| - 1]];
    }
  }

  lemma {:induction false} SomeUnchecked(c: Contracts, l: Ledger, rows: seq<ActionRecord>, i: nat)
    requires i < |rows| && !ActionChecked(c, l, rows[i])
    ensures !AllChecked(c, l, rows)
  {
    AllCheckedRows(c, l, rows);
  }

  type Actions = map<string, ActionRecord>

  /** The first `n` rows have passed: they are the table `done`. */
  ghost predicate Passed(c: Contracts, l: Ledger, rows: seq<ActionRecord>, n: nat, done: Actions)
    requires n <= |rows|
  {
    && AllChecked(c, l, rows[..n])
    && done == Table(ActionKey, rows[..n])
    && forall x :: x in done ==> done[x].action.scopeId in l.scopes
  }

  lemma PassedNext(c: Contracts, l: Ledger, rows: seq<ActionRecord>, i: nat, done: Actions)
    requires RisingBy(ActionKey, rows) && i < |rows| && Passed(c, l, rows, i, done)
    requires ActionChecked(c, l, rows[i]) && rows[i].action.scopeId in l.scopes
    ensures Passed(c, l, rows, i + 1, done[ActionKey(rows[i]) := rows[i]])
  {
    TableGrows(rows, i);
    assert rows[..i + 1][..i] == rows[..i];
  }

  method CheckNext(c: Contracts, l: Ledger, rows: seq<ActionRecord>, i: nat, tally: Tally, ghost done: Actions)
    returns (ok: bool, after: Tally)
    requires ScopesPass(c, l) && RisingBy(ActionKey, rows) && i < |rows| && Passed(c, l, rows, i, done)
      && Tallied(l, done, tally)
    ensures ok ==>
      && Passed(c, l, rows, i + 1, done[ActionKey(rows[i]) := rows[i]])
      && Tallied(l, done[ActionKey(rows[i]) := rows[i]], after)
    ensures !ok ==> !AllChecked(c, l, rows)
  {
    TableGrows(rows, i);
    ok, after := CheckAction(c, l, rows[i], tally, done);
    if ok { PassedNext(c, l, rows, i, done); } else { SomeUnchecked(c, l, rows, i); }
  }

  /** The second pass over actions. */
  method CheckActions(c: Contracts, l: Ledger, rows: seq<ActionRecord>) returns (ok: bool, tally: Tally)
    requires ScopesPass(c, l) && RisingBy(ActionKey, rows)
    ensures ok <==> AllChecked(c, l, rows)
    ensures ok ==> Tallied(l, Table(ActionKey, rows), tally)
  {
    tally := map s | s in l.scopes :: (0, {});
    EmptyTally(l, tally);
    ghost var done: Actions := map[];
    for i := 0 to |rows|
      invariant Passed(c, l, rows, i, done) && Tallied(l, done, tally)
    {
      ok, tally := CheckNext(c, l, rows, i, tally, done);
      if !ok { return; }
      done := done[ActionKey(rows[i]) := rows[i]];
    }
    assert rows[..|rows|] == rows;
    ok := true;
  }

  lemma AncestryIsLine(c: Contracts, l: Ledger, id: string)
    requires ScopesPass(c, l)
    ensures AncestryOf(c, l.scopes, id).Some? <==> id in l.scopes
    ensures id in l.scopes ==> AncestryOf(c, l.scopes, id).value == Rows(l.scopes, Line(l.scopes, id))
  {
    AncestryIsChain(c, l.scopes, id);
    ChainIsLine(c, l.scopes, id);
  }

  /** Recorded charges must equal the tally, scope by scope. */
  method CheckCharges(l: Ledger, rows: seq<ScopeRecord>, tally: Tally) returns (ok: bool)
    requires Forest(l.scopes) && Tallied(l, l.actions, tally)
    requires forall i :: 0 <= i < |rows| ==> ScopeKey(rows[i]) in l.scopes && l.scopes[ScopeKey(rows[i])] == rows[i]
    requires forall id :: id in l.scopes ==> exists i :: 0 <= i < |rows| && ScopeKey(rows[i]) == id
    ensures ok <==> Charges(l)
  {
    for i := 0 to |rows|
      invariant forall k :: 0 <= k < i ==> Charged(l, ScopeKey(rows[k]))
    {
      var s := ScopeKey(rows[i]);
      SameTally(l, s);
      if (rows[i].chargedAttempts, rows[i].chargedResources) != tally[s] {
        assert !Charged(l, s);
        return false;
      }
      assert Charged(l, s);
    }
    forall id | id in l.scopes ensures Charged(l, id) {
      var i :| 0 <= i < |rows| && ScopeKey(rows[i]) == id;
      assert Charged(l, ScopeKey(rows[i]));
    }
    return true;
  }

  lemma SameTally(l: Ledger, s: string)
    requires Forest(l.scopes)
    ensures l.(actions := l.actions) == l
  {
  }
}
