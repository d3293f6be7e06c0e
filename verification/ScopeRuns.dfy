/** Every public call, every failure, every restart: the ledger stays consistent over whole runs. */
module ScopeRuns {
  import opened Wrappers
  import opened Order
  import opened ScopeTypes
  import opened ScopeForest
  import opened ScopeConsistency
  import opened ScopeEvolution
  import opened ScopeLedger
  import opened ScopeSteps
  import opened ScopeTableSteps
  import opened ScopeChargeSteps

  lemma EvolvesSelf(l: Ledger)
    ensures Evolves(l, l)
  {
  }

  /** On a consistent ledger the loading checks pass, and absence is the only failure. */
  lemma LoadsScope(c: Contracts, l: Ledger, id: string)
    requires Consistent(c, l)
    ensures LoadScope(c, l.scopes, id) == if id in l.scopes then Ok(l.scopes[id]) else Err(NotFound)
  {
    if id in l.scopes {
      assert SoundScope(c, l.scopes, id);
      LoadSound(c, l.scopes, id);
    }
  }

  lemma LoadsAction(c: Contracts, l: Ledger, id: string)
    requires Consistent(c, l)
    ensures LoadAction(c, l, id) == if id in l.actions then Ok(l.actions[id]) else Err(NotFound)
  {
    if id in l.actions { assert ActionRow(c, l, id); }
  }

  /** An issue that inserts a row has found its whole ancestry active and strictly wider. */
  lemma IssueTxChecks(c: Contracts, l: Ledger, g: ScopeGrant, guard: Guard)
    requires Lawful(c) && SoundScopes(c, l.scopes) && Forest(l.scopes) && LastSequence(l.events) == |l.events|
    requires c.canonGrant(g) == Ok(g) && g.owner == l.owner && g.scopeId !in l.scopes
    requires IssueTx(c, l, g, guard, l.lastSeen).reply.Ok?
    ensures Issuable(c, l, g)
    ensures IssueTx(c, l, g, guard, l.lastSeen).ledger == Stored(l, IssuedRow(c, l, g), ScopeIssued)
  {
    if g.parentId.Some? {
      ActiveIsLine(c, l.scopes, g.parentId.value, l.lastSeen);
      assert g.parentId.value in l.scopes;
      assert Rows(l.scopes, Line(l.scopes, g.parentId.value))[0] == l.scopes[g.parentId.value];
    }
  }

  lemma IssueTxKept(c: Contracts, l: Ledger, g: ScopeGrant, guard: Guard, b: Ledger)
    requires Lawful(c) && Consistent(c, l) && c.canonGrant(g) == Ok(g) && g.owner == l.owner
    requires IssueTx(c, l, g, guard, l.lastSeen).reply.Ok?
    requires b == IssueTx(c, l, g, guard, l.lastSeen).ledger
    ensures Kept(c, l, b)
  {
    LoadsScope(c, l, g.scopeId);
    if g.scopeId in l.scopes {
      EvolvesSelf(l);
    } else {
      NextSequence(l);
      IssueTxChecks(c, l, g, guard);
      IssuedKept(c, l, g);
    }
  }

  lemma ReserveTxForm(c: Contracts, l: Ledger, p: PreparedAction, e: AdmissionEvidence, guard: Guard,
                      chain: seq<ScopeRecord>)
    requires forall id :: id in l.actions ==> !Collides(l.actions[id].action, p)
    requires |chain| > 0 && ActiveChain(c, l.scopes, p.scopeId, l.lastSeen) == Ok(chain)
    requires ReserveTx(c, l, p, e, guard, l.lastSeen).reply.Ok?
    ensures c.admits(e, chain[0].grant, p, l.lastSeen).None?
    ensures forall i :: 0 <= i < |chain| ==> HasRoom(chain[i], p.resource)
    ensures ReserveTx(c, l, p, e, guard, l.lastSeen).ledger ==
      l.(scopes := ChargeAll(l.scopes, chain, p.resource),
         actions := l.actions[p.actionId := ActionRecord(p, c.actionDigest(p), e, l.lastSeen, None, None, Reserved)],
         events := l.events
           + [AuthorityEvent(LastSequence(l.events) + 1, p.scopeId, Some(p.actionId), AttemptCharged, Some(l.lastSeen),
                             c.actionDigest(p))])
  {
  }

  lemma RoomOnLine(scopes: Scopes, scope: string, resource: string)
    requires Forest(scopes) && scope in scopes
    requires forall i :: 0 <= i < |Rows(scopes, Line(scopes, scope))| ==>
      HasRoom(Rows(scopes, Line(scopes, scope))[i], resource)
    ensures forall x :: Above(scopes, x, scope) ==> HasRoom(scopes[x], resource)
  {
    var ids := Line(scopes, scope);
    var rows := Rows(scopes, ids);
    forall x | Above(scopes, x, scope) ensures HasRoom(scopes[x], resource) {
      var i :| 0 <= i < |ids| && ids[i] == x;
      assert HasRoom(rows[i], resource);
    }
  }

  /** A reservation that is not a duplicate and succeeds has passed every check of its line. */
  lemma ReserveTxChecks(c: Contracts, l: Ledger, p: PreparedAction, e: AdmissionEvidence, guard: Guard)
    requires Lawful(c) && SoundScopes(c, l.scopes) && Forest(l.scopes)
    requires c.canonAction(p) == Ok(p) && p.owner == l.owner && LastSequence(l.events) == |l.events|
    requires forall id :: id in l.actions ==> l.actions[id].action.actionId == id && !Collides(l.actions[id].action, p)
    requires ReserveTx(c, l, p, e, guard, l.lastSeen).reply.Ok?
    ensures Reservable(c, l, p, e)
    ensures ReserveTx(c, l, p, e, guard, l.lastSeen).ledger == Booked(c, l, p, e)
  {
    ActiveIsLine(c, l.scopes, p.scopeId, l.lastSeen);
    assert p.scopeId in l.scopes;
    var rows := Rows(l.scopes, Line(l.scopes, p.scopeId));
    assert rows[0] == l.scopes[p.scopeId];
    ReserveTxForm(c, l, p, e, guard, rows);
    RoomOnLine(l.scopes, p.scopeId, p.resource);
    ChargeAllIsLine(l.scopes, p.scopeId, p.resource);
  }

  /** A duplicate proposal is answered from the table without touching it. */
  lemma ReserveTxDuplicate(c: Contracts, l: Ledger, p: PreparedAction, e: AdmissionEvidence, guard: Guard, now: int)
    requires exists id :: id in l.actions && Collides(l.actions[id].action, p)
    ensures ReserveTx(c, l, p, e, guard, now).ledger == l
  {
  }

  lemma ReserveTxKept(c: Contracts, l: Ledger, p: PreparedAction, e: AdmissionEvidence, guard: Guard, b: Ledger)
    requires Lawful(c) && Consistent(c, l) && c.canonAction(p) == Ok(p) && p.owner == l.owner
    requires ReserveTx(c, l, p, e, guard, l.lastSeen).reply.Ok?
    requires b == ReserveTx(c, l, p, e, guard, l.lastSeen).ledger
    ensures Kept(c, l, b)
  {
    if exists id :: id in l.actions && Collides(l.actions[id].action, p) {
      ReserveTxDuplicate(c, l, p, e, guard, l.lastSeen);
      EvolvesSelf(l);
    } else {
      NextSequence(l);
      ReserveTxChecks(c, l, p, e, guard);
      BookedKept(c, l, p, e);
    }
  }

  /** A claim that succeeds found a reserved attempt under an active line and moves it on. */
  lemma ClaimTxChecks(c: Contracts, l: Ledger, id: string, digest: string, guard: Guard)
    requires Lawful(c) && SoundScopes(c, l.scopes) && Forest(l.scopes) && LastSequence(l.events) == |l.events|
    requires LoadAction(c, l, id) == if id in l.actions then Ok(l.actions[id]) else Err(NotFound)
    requires ClaimTx(c, l, id, digest, guard, l.lastSeen).reply.Ok?
    ensures id in l.actions && l.actions[id].state.Reserved?
    ensures var r := l.actions[id];
      && r.action.scopeId in l.scopes
      && (forall x :: Above(l.scopes, x, r.action.scopeId) ==> Active(l.scopes[x], l.lastSeen))
      && c.admits(r.evidence, l.scopes[r.action.scopeId].grant, r.action, l.lastSeen).None?
      && ClaimTx(c, l, id, digest, guard, l.lastSeen).ledger ==
         Moved(l, id, r.(state := DispatchClaimed, dispatchClaimedAt := Some(l.lastSeen)), ClaimRecorded,
               Some(l.lastSeen))
  {
    var r := l.actions[id];
    ActiveIsLine(c, l.scopes, r.action.scopeId, l.lastSeen);
    assert Rows(l.scopes, Line(l.scopes, r.action.scopeId))[0] == l.scopes[r.action.scopeId];
  }

  function ClaimedRow(r: ActionRecord, now: int): ActionRecord {
    r.(state := DispatchClaimed, dispatchClaimedAt := Some(now))
  }

  lemma ClaimReady(c: Contracts, l: Ledger, id: string)
    requires Lawful(c) && Forest(l.scopes) && id in l.actions && ActionRow(c, l, id) && l.actions[id].state.Reserved?
    requires c.admits(l.actions[id].evidence, l.scopes[l.actions[id].action.scopeId].grant, l.actions[id].action,
                      l.lastSeen).None?
    ensures MoveRecorded(l.actions[id], ClaimedRow(l.actions[id], l.lastSeen), ClaimRecorded, Some(l.lastSeen))
    ensures l.lastSeen < l.actions[id].evidence.expiresAt
  {
  }

  lemma ClaimTxKept(c: Contracts, l: Ledger, id: string, digest: string, guard: Guard, b: Ledger)
    requires Lawful(c) && Consistent(c, l)
    requires ClaimTx(c, l, id, digest, guard, l.lastSeen).reply.Ok?
    requires b == ClaimTx(c, l, id, digest, guard, l.lastSeen).ledger
    ensures Kept(c, l, b)
  {
    LoadsAction(c, l, id);
    NextSequence(l);
    ClaimTxChecks(c, l, id, digest, guard);
    ClaimReady(c, l, id);
    MovedKept(c, l, id, ClaimedRow(l.actions[id], l.lastSeen), ClaimRecorded, Some(l.lastSeen));
  }

  function FinishedRow(r: ActionRecord, outcome: Outcome, now: int): ActionRecord {
    r.(state := FinalState(outcome), finishedAt := Some(now))
  }

  lemma FinishTxForm(c: Contracts, l: Ledger, id: string, outcome: Outcome)
    requires LastSequence(l.events) == |l.events|
    requires LoadAction(c, l, id) == if id in l.actions then Ok(l.actions[id]) else Err(NotFound)
    requires FinishTx(c, l, id, outcome, l.lastSeen).reply.Ok?
    ensures id in l.actions && Pending(l.actions[id])
    ensures outcome.Accepted? ==> l.actions[id].state.DispatchClaimed?
    ensures FinishTx(c, l, id, outcome, l.lastSeen).ledger ==
      Moved(l, id, FinishedRow(l.actions[id], outcome, l.lastSeen), AttemptFinished, Some(l.lastSeen))
  {
  }

  lemma FinishReady(c: Contracts, l: Ledger, id: string, outcome: Outcome)
    requires Forest(l.scopes) && id in l.actions && ActionRow(c, l, id) && Pending(l.actions[id])
    requires outcome.Accepted? ==> l.actions[id].state.DispatchClaimed?
    ensures MoveRecorded(l.actions[id], FinishedRow(l.actions[id], outcome, l.lastSeen), AttemptFinished,
                         Some(l.lastSeen))
  {
  }

  lemma FinishTxKept(c: Contracts, l: Ledger, id: string, outcome: Outcome, b: Ledger)
    requires Consistent(c, l)
    requires FinishTx(c, l, id, outcome, l.lastSeen).reply.Ok?
    requires b == FinishTx(c, l, id, outcome, l.lastSeen).ledger
    ensures Kept(c, l, b)
  {
    LoadsAction(c, l, id);
    NextSequence(l);
    FinishTxForm(c, l, id, outcome);
    FinishReady(c, l, id, outcome);
    MovedKept(c, l, id, FinishedRow(l.actions[id], outcome, l.lastSeen), AttemptFinished, Some(l.lastSeen));
  }

  lemma RevokeTxForm(c: Contracts, l: Ledger, id: string)
    requires id in l.scopes && LoadScope(c, l.scopes, id) == Ok(l.scopes[id]) && LastSequence(l.events) == |l.events|
    requires l.scopes[id].revokedAt.None? && l.scopes[id].grant.scopeId == id
    requires RevokeTx(c, l, id, l.lastSeen).reply.Ok?
    ensures RevokeTx(c, l, id, l.lastSeen).ledger == Stored(l, RevokedRow(l, id), ScopeRevoked)
  {
  }

  lemma RevokeTxKept(c: Contracts, l: Ledger, id: string, b: Ledger)
    requires Consistent(c, l)
    requires RevokeTx(c, l, id, l.lastSeen).reply.Ok?
    requires b == RevokeTx(c, l, id, l.lastSeen).ledger
    ensures Kept(c, l, b)
  {
    LoadsScope(c, l, id);
    if l.scopes[id].revokedAt.None? {
      NextSequence(l);
      RevokeTxForm(c, l, id);
      RevokedKept(c, l, id);
    } else {
      EvolvesSelf(l);
    }
  }

  ghost predicate Prepared(c: Contracts, l: Ledger, call: Call) {
    && (call.IssueScope? ==> c.canonGrant(call.grant) == Ok(call.grant) && call.grant.owner == l.owner)
    && (call.Reserve? ==> c.canonAction(call.action) == Ok(call.action) && call.action.owner == l.owner)
  }

  lemma BodyKept(c: Contracts, l: Ledger, call: Call)
    requires Lawful(c) && Consistent(c, l) && Prepared(c, l, call) && call.now == l.lastSeen
    requires Body(c, l, call).reply.Ok?
    ensures Kept(c, l, Body(c, l, call).ledger)
  {
    match call
    case IssueScope(grant, guard, now) => IssueTxKept(c, l, grant, guard, Body(c, l, call).ledger);
    case Reserve(action, evidence, guard, now) => ReserveTxKept(c, l, action, evidence, guard, Body(c, l, call).ledger);
    case ClaimDispatch(id, digest, guard, now) => ClaimTxKept(c, l, id, digest, guard, Body(c, l, call).ledger);
    case Finish(id, outcome, now) => FinishTxKept(c, l, id, outcome, Body(c, l, call).ledger);
    case Revoke(id, now) => RevokeTxKept(c, l, id, Body(c, l, call).ledger);
  }

  /** A failed transaction changes nothing but the observed clock. */
  lemma MutateFails(c: Contracts, l: Ledger, call: Call)
    requires Mutate(c, l, call).reply.Err?
    ensures Mutate(c, l, call).ledger == l
      || (l.lastSeen <= call.now && Mutate(c, l, call).ledger == l.(lastSeen := call.now))
  {
  }

  lemma KeptThrough(c: Contracts, a: Ledger, m: Ledger, b: Ledger)
    requires Kept(c, a, m) && Kept(c, m, b)
    ensures Kept(c, a, b)
  {
    EvolvesTransitive(a, m, b);
  }

  lemma CommittedKept(c: Contracts, l: Ledger, call: Call, seen: Ledger, b: Ledger)
    requires Lawful(c) && Consistent(c, l) && Prepared(c, l, call) && l.lastSeen <= call.now
    requires seen == l.(lastSeen := call.now) && Body(c, seen, call).reply.Ok? && b == Body(c, seen, call).ledger
    ensures Kept(c, l, b)
  {
    Tick(c, l, call.now);
    BodyKept(c, seen, call);
    KeptThrough(c, l, seen, b);
  }

  lemma MutateForm(c: Contracts, l: Ledger, call: Call)
    ensures var b := Mutate(c, l, call).ledger;
      var seen := l.(lastSeen := call.now);
      b == l || (l.lastSeen <= call.now
                 && (b == seen || (Body(c, seen, call).reply.Ok? && b == Body(c, seen, call).ledger)))
  {
  }

  lemma MutateKept(c: Contracts, l: Ledger, call: Call, b: Ledger)
    requires Lawful(c) && Consistent(c, l) && Prepared(c, l, call) && b == Mutate(c, l, call).ledger
    ensures Kept(c, l, b)
  {
    MutateForm(c, l, call);
    var seen := l.(lastSeen := call.now);
    if b == l {
      EvolvesSelf(l);
    } else if b == seen {
      Tick(c, l, call.now);
    } else {
      CommittedKept(c, l, call, seen, b);
    }
  }

  /** Any public call, whatever its arguments, its guard and its outcome, keeps the ledger. */
  lemma ApplyKept(c: Contracts, l: Ledger, call: Call)
    requires Lawful(c) && Consistent(c, l)
    ensures Kept(c, l, Apply(c, l, call).ledger)
  {
    EvolvesSelf(l);
    match call
    case IssueScope(grant, guard, now) =>
      if c.canonGrant(grant).Ok? && c.canonGrant(grant).value.owner == l.owner {
        MutateKept(c, l, call.(grant := c.canonGrant(grant).value), Apply(c, l, call).ledger);
      }
    case Reserve(action, evidence, guard, now) =>
      if c.canonAction(action).Ok? && c.canonAction(action).value.owner == l.owner {
        MutateKept(c, l, call.(action := c.canonAction(action).value), Apply(c, l, call).ledger);
      }
    case _ => MutateKept(c, l, call, Apply(c, l, call).ledger);
  }

  // ------------------------------------------------------------------ recovery

  ghost function PendingCount(l: Ledger, ids: seq<string>): nat
    requires forall id :: id in ids ==> id in l.actions
  {
    if ids == [] then 0
    else PendingCount(l, ids[..|ids| - 1]) + (if Pending(l.actions[ids[|ids| - 1]]) then 1 else 0)
  }

  /** What recovery leaves: listed unfinished attempts are UNKNOWN, every other row is untouched. */
  ghost predicate Recovered(a: Ledger, b: Ledger, ids: seq<string>) {
    && b.owner == a.owner && b.lastSeen == a.lastSeen && b.scopes == a.scopes
    && b.actions.Keys == a.actions.Keys
    && (forall x :: x in a.actions ==>
          b.actions[x] ==
            if x in ids && (a.actions[x].state == Reserved || a.actions[x].state == DispatchClaimed) then
              a.actions[x].(state := Unknown)
            else a.actions[x])
  }

  lemma InterruptForm(l: Ledger, id: string)
    requires id in l.actions && LastSequence(l.events) == |l.events| && Pending(l.actions[id])
    ensures Interrupt(l, id).reply.Ok? <==> |l.events| < I64_MAX
    ensures Interrupt(l, id).reply.Ok? ==>
      Interrupt(l, id).ledger == Moved(l, id, l.actions[id].(state := Unknown), Interrupted, None)
  {
  }

  lemma InterruptReady(c: Contracts, l: Ledger, id: string)
    requires Tables(c, l) && id in l.actions && Pending(l.actions[id])
    ensures MoveRecorded(l.actions[id], l.actions[id].(state := Unknown), Interrupted, None)
  {
    assert ActionRow(c, l, id);
  }

  lemma InterruptKept(c: Contracts, l: Ledger, id: string, b: Ledger)
    requires Consistent(c, l) && id in l.actions
    requires Interrupt(l, id).reply.Ok? && b == Interrupt(l, id).ledger
    ensures Kept(c, l, b)
  {
    if Pending(l.actions[id]) {
      NextSequence(l);
      InterruptForm(l, id);
      InterruptReady(c, l, id);
      MovedKept(c, l, id, l.actions[id].(state := Unknown), Interrupted, None);
    } else {
      EvolvesSelf(l);
    }
  }

  /** Recovery fails only if the log cannot hold one event per unfinished attempt. */
  lemma {:induction false} RecoverCounts(l: Ledger, ids: seq<string>)
    requires LastSequence(l.events) == |l.events| && Rising(ids) && forall id :: id in ids ==> id in l.actions
    ensures Recover(l, ids).Ok? <==> PendingCount(l, ids) == 0 || |l.events| + PendingCount(l, ids) <= I64_MAX
    ensures Recover(l, ids).Ok? ==>
      var m := Recover(l, ids).value;
      Recovered(l, m, ids) && LastSequence(m.events) == |m.events| == |l.events| + PendingCount(l, ids)
    decreases |ids|
  {
    if ids != [] {
      var n := |ids| - 1;
      RecoverCounts(l, ids[..n]);
      if Recover(l, ids[..n]).Ok? { RecoverOne(l, ids, Recover(l, ids[..n]).value); }
    }
  }

  lemma InterruptCounts(m: Ledger, id: string)
    requires id in m.actions && LastSequence(m.events) == |m.events|
    ensures Interrupt(m, id).reply.Ok? <==> !Pending(m.actions[id]) || |m.events| < I64_MAX
    ensures Interrupt(m, id).reply.Ok? ==>
      var b := Interrupt(m, id).ledger;
      LastSequence(b.events) == |b.events| == |m.events| + if Pending(m.actions[id]) then 1 else 0
  {
  }

  lemma RecoverOne(l: Ledger, ids: seq<string>, m: Ledger)
    requires |ids| > 0 && Rising(ids) && forall id :: id in ids ==> id in l.actions
    requires Recover(l, ids[..|ids| - 1]) == Ok(m) && Recovered(l, m, ids[..|ids| - 1])
    requires LastSequence(m.events) == |m.events| == |l.events| + PendingCount(l, ids[..|ids| - 1])
    ensures Recover(l, ids).Ok? <==> PendingCount(l, ids) == PendingCount(l, ids[..|ids| - 1]) || |m.events| < I64_MAX
    ensures Recover(l, ids).Ok? ==>
      var b := Recover(l, ids).value;
      Recovered(l, b, ids) && LastSequence(b.events) == |b.events| == |l.events| + PendingCount(l, ids)
  {
    var last := ids[|ids| - 1];
    LastUntouched(l, ids, m);
    InterruptCounts(m, last);
    if Interrupt(m, last).reply.Ok? {
      RecoveredOne(l, m, Interrupt(m, last).ledger, ids);
    }
  }

  lemma LastUntouched(l: Ledger, ids: seq<string>, m: Ledger)
    requires |ids| > 0 && Rising(ids) && ids[|ids| - 1] in l.actions && Recovered(l, m, ids[..|ids| - 1])
    ensures ids[|ids| - 1] in m.actions && m.actions[ids[|ids| - 1]] == l.actions[ids[|ids| - 1]]
  {
    NotListedYet(ids);
  }

  /** Recovery keeps the ledger. */
  lemma {:induction false} RecoverKept(c: Contracts, l: Ledger, ids: seq<string>, b: Ledger)
    requires Consistent(c, l) && (forall id :: id in ids ==> id in l.actions) && Recover(l, ids) == Ok(b)
    ensures Kept(c, l, b)
    decreases |ids|
  {
    if ids == [] {
      EvolvesSelf(l);
    } else {
      var m := RecoverLast(l, ids, b);
      RecoverKept(c, l, ids[..|ids| - 1], m);
      InterruptedKept(c, l, m, ids[|ids| - 1], b);
    }
  }

  lemma RecoverLast(l: Ledger, ids: seq<string>, b: Ledger) returns (m: Ledger)
    requires |ids| > 0 && (forall id :: id in ids ==> id in l.actions) && Recover(l, ids) == Ok(b)
    ensures Recover(l, ids[..|ids| - 1]) == Ok(m) && ids[|ids| - 1] in m.actions
    ensures Interrupt(m, ids[|ids| - 1]).reply.Ok? && b == Interrupt(m, ids[|ids| - 1]).ledger
  {
    m := Recover(l, ids[..|ids| - 1]).value;
  }

  lemma InterruptedKept(c: Contracts, l: Ledger, m: Ledger, id: string, b: Ledger)
    requires Kept(c, l, m) && id in m.actions && Interrupt(m, id).reply.Ok? && b == Interrupt(m, id).ledger
    ensures Kept(c, l, b)
  {
    InterruptKept(c, m, id, b);
    KeptThrough(c, l, m, b);
  }

  lemma NotListedYet(ids: seq<string>)
    requires |ids| > 0 && Rising(ids)
    ensures ids[|ids| - 1] !in ids[..|ids| - 1]
    ensures forall x :: x in ids <==> x in ids[..|ids| - 1] || x == ids[|ids| - 1]
  {
    var n := |ids| - 1;
    forall i | 0 <= i < n ensures ids[i] != ids[n] { RisingFar(ids, i, n); }
    assert ids == ids[..n] + [ids[n]];
  }

  lemma RecoveredOne(l: Ledger, m: Ledger, b: Ledger, ids: seq<string>)
    requires |ids| > 0 && Rising(ids) && ids[|ids| - 1] in m.actions && Recovered(l, m, ids[..|ids| - 1])
    requires Interrupt(m, ids[|ids| - 1]) .reply.Ok? && b == Interrupt(m, ids[|ids| - 1]).ledger
    ensures Recovered(l, b, ids)
  {
    NotListedYet(ids);
  }
}
