/** The guarantees of the scope ledger over every run of calls, failures, crashes and restarts. */
module ScopeTheorems {
  import opened Wrappers
  import opened Order
  import opened ScopeTypes
  import opened ScopeForest
  import opened ScopeConsistency
  import opened ScopeEvolution
  import opened ScopeLedger
  import opened ScopeSteps
  import opened ScopeRuns
  import ScopeContracts

  /**
   * A crash before commit leaves the tables as they were; a crash after commit, with the
   * acknowledgement lost, is an invocation whose reply nobody reads.
   */
  datatype Step = Invoke(call: Call) | Reopen(owner: AuthorityOwner) | CrashBeforeCommit

  ghost function Next(c: Contracts, l: Ledger, step: Step): Ledger {
    match step
    case Invoke(call) => Apply(c, l, call).ledger
    case Reopen(owner) => if Open(c, l, owner).Ok? then Open(c, l, owner).value else l
    case CrashBeforeCommit => l
  }

  ghost function Run(c: Contracts, l: Ledger, steps: seq<Step>): Ledger
    decreases |steps|
  {
    if steps == [] then l else Next(c, Run(c, l, steps[..|steps| - 1]), steps[|steps| - 1])
  }

  // ------------------------------------------------------------------ opening

  ghost function UnfinishedAmong(l: Ledger, ids: seq<string>): set<string> {
    set x | x in ids && x in l.actions && Pending(l.actions[x])
  }

  ghost function Unfinished(l: Ledger): set<string> {
    set x | x in l.actions && (l.actions[x].state == Reserved || l.actions[x].state == DispatchClaimed)
  }

  lemma {:induction false} PendingCounted(l: Ledger, ids: seq<string>)
    requires Rising(ids) && forall id :: id in ids ==> id in l.actions
    ensures PendingCount(l, ids) == |UnfinishedAmong(l, ids)|
    decreases |ids|
  {
    if ids != [] {
      var n := |ids| - 1;
      PendingCounted(l, ids[..n]);
      NotListedYet(ids);
      assert UnfinishedAmong(l, ids) ==
        UnfinishedAmong(l, ids[..n]) + (if Pending(l.actions[ids[n]]) then {ids[n]} else {});
    }
  }

  lemma OpenForm(c: Contracts, l: Ledger, owner: AuthorityOwner)
    requires Consistent(c, l)
    ensures Open(c, l, owner).Ok? ==> owner == l.owner
    ensures owner == l.owner ==> Open(c, l, owner) == Recover(l, Listing(l.actions.Keys))
  {
  }

  /**
   * Opening never rejects a consistent ledger of its own owner; it can fail only when the event log
   * has no room for one interruption per unfinished attempt. Afterwards nothing is unfinished.
   */
  lemma OpenExact(c: Contracts, l: Ledger, owner: AuthorityOwner)
    requires Consistent(c, l)
    ensures Open(c, l, owner).Ok? <==>
      owner == l.owner && (Unfinished(l) == {} || |l.events| + |Unfinished(l)| <= I64_MAX)
    ensures Open(c, l, owner).Ok? ==>
      var m := Open(c, l, owner).value;
      Kept(c, l, m) && Recovered(l, m, Listing(l.actions.Keys)) && Unfinished(m) == {}
  {
    OpenForm(c, l, owner);
    NextSequence(l);
    RecoveryFits(l);
    if owner == l.owner && Recover(l, Listing(l.actions.Keys)).Ok? {
      RecoverKept(c, l, Listing(l.actions.Keys), Recover(l, Listing(l.actions.Keys)).value);
    }
  }

  lemma RecoveryFits(l: Ledger)
    requires LastSequence(l.events) == |l.events|
    ensures var ids := Listing(l.actions.Keys);
      && (Recover(l, ids).Ok? <==> Unfinished(l) == {} || |l.events| + |Unfinished(l)| <= I64_MAX)
      && (Recover(l, ids).Ok? ==> Recovered(l, Recover(l, ids).value, ids) && Unfinished(Recover(l, ids).value) == {})
  {
    var ids := Listing(l.actions.Keys);
    RecoverCounts(l, ids);
    PendingCounted(l, ids);
    assert Unfinished(l) == UnfinishedAmong(l, ids);
    if Recover(l, ids).Ok? { NothingUnfinished(l, Recover(l, ids).value); }
  }

  lemma NothingUnfinished(l: Ledger, m: Ledger)
    requires Recovered(l, m, Listing(l.actions.Keys))
    ensures Unfinished(m) == {}
  {
  }

  // ------------------------------------------------------------------ runs

  lemma FreshConsistent(c: Contracts, owner: AuthorityOwner)
    requires c.ownerOk(owner)
    ensures Consistent(c, Fresh(owner))
  {
  }

  lemma NextKept(c: Contracts, l: Ledger, step: Step)
    requires Lawful(c) && Consistent(c, l)
    ensures Kept(c, l, Next(c, l, step))
  {
    EvolvesSelf(l);
    match step
    case Invoke(call) => ApplyKept(c, l, call);
    case Reopen(owner) => OpenExact(c, l, owner);
    case CrashBeforeCommit =>
  }

  /** Consistency survives every run, and the end of a run only evolves its beginning. */
  lemma {:induction false} RunKept(c: Contracts, l: Ledger, steps: seq<Step>)
    requires Lawful(c) && Consistent(c, l)
    ensures Kept(c, l, Run(c, l, steps))
    decreases |steps|
  {
    if steps == [] {
      EvolvesSelf(l);
    } else {
      var m := Run(c, l, steps[..|steps| - 1]);
      RunKept(c, l, steps[..|steps| - 1]);
      NextKept(c, m, steps[|steps| - 1]);
      KeptThrough(c, l, m, Run(c, l, steps));
    }
  }

  lemma {:induction false} RunAppend(c: Contracts, l: Ledger, a: seq<Step>, b: seq<Step>)
    ensures Run(c, l, a + b) == Run(c, Run(c, l, a), b)
    decreases |b|
  {
    if b == [] {
      assert a + b == a;
    } else {
      var n := |b| - 1;
      RunAppend(c, l, a, b[..n]);
      assert (a + b)[..|a + b| - 1] == a + b[..n];
    }
  }

  lemma RunOn(c: Contracts, l: Ledger, a: seq<Step>, b: seq<Step>)
    requires Lawful(c) && Consistent(c, l)
    ensures Kept(c, Run(c, l, a), Run(c, l, a + b))
  {
    RunKept(c, l, a);
    RunAppend(c, l, a, b);
    RunKept(c, Run(c, l, a), b);
  }

  /** Every ledger a store can ever hold is consistent, and each later one evolves each earlier one. */
  lemma ReachableConsistent(c: Contracts, owner: AuthorityOwner, steps: seq<Step>, k: nat)
    requires Lawful(c) && c.ownerOk(owner) && k <= |steps|
    ensures Consistent(c, Run(c, Fresh(owner), steps))
    ensures Evolves(Run(c, Fresh(owner), steps[..k]), Run(c, Fresh(owner), steps))
  {
    FreshConsistent(c, owner);
    RunOn(c, Fresh(owner), steps[..k], steps[k..]);
    assert steps[..k] + steps[k..] == steps;
  }

  // ------------------------------------------------------------------ failure

  /** A call that fails changes nothing except, at most, the observed time. */
  lemma FailureIsClockOnly(c: Contracts, l: Ledger, call: Call)
    requires Apply(c, l, call).reply.Err?
    ensures var m := Apply(c, l, call).ledger;
      m == l || (l.lastSeen < call.now && m == l.(lastSeen := call.now))
  {
    match call
    case IssueScope(grant, guard, now) =>
      if c.canonGrant(grant).Ok? && c.canonGrant(grant).value.owner == l.owner {
        MutateFails(c, l, call.(grant := c.canonGrant(grant).value));
      }
    case Reserve(action, evidence, guard, now) =>
      if c.canonAction(action).Ok? && c.canonAction(action).value.owner == l.owner {
        MutateFails(c, l, call.(action := c.canonAction(action).value));
      }
    case _ => MutateFails(c, l, call);
  }

  // ------------------------------------------------------------------ single dispatch

  ghost predicate ClaimSucceeds(c: Contracts, l: Ledger, step: Step, id: string) {
    step.Invoke? && step.call.ClaimDispatch? && step.call.actionId == id && Apply(c, l, step.call).reply.Ok?
  }

  /** A claim needs a reserved attempt and leaves it claimed. */
  lemma ClaimMoves(c: Contracts, l: Ledger, step: Step, id: string)
    requires Lawful(c) && Consistent(c, l) && ClaimSucceeds(c, l, step, id)
    ensures id in l.actions && l.actions[id].state.Reserved?
    ensures id in Next(c, l, step).actions && Next(c, l, step).actions[id].state.DispatchClaimed?
  {
    var call := step.call;
    var seen := l.(lastSeen := call.now);
    Tick(c, l, call.now);
    LoadsAction(c, seen, id);
    NextSequence(seen);
    ClaimTxChecks(c, seen, id, call.expectedDigest, call.guard);
  }

  /** No attempt is dispatched twice, whatever is retried, lost, interrupted or restarted in between. */
  lemma SingleDispatch(c: Contracts, owner: AuthorityOwner, steps: seq<Step>, i: nat, j: nat, id: string)
    requires Lawful(c) && c.ownerOk(owner) && i < j < |steps|
    requires ClaimSucceeds(c, Run(c, Fresh(owner), steps[..i]), steps[i], id)
    ensures !ClaimSucceeds(c, Run(c, Fresh(owner), steps[..j]), steps[j], id)
  {
    var a := Run(c, Fresh(owner), steps[..i]);
    ReachableConsistent(c, owner, steps[..i], 0);
    ClaimMoves(c, a, steps[i], id);
    assert steps[..i + 1][..i] == steps[..i];
    assert Run(c, Fresh(owner), steps[..i + 1]) == Next(c, a, steps[i]);
    NoClaimOnceMoved(c, owner, steps, i + 1, j, id);
  }

  /** Once an attempt has left RESERVED — claimed, finished or interrupted — no claim succeeds again. */
  lemma NoClaimOnceMoved(c: Contracts, owner: AuthorityOwner, steps: seq<Step>, i: nat, j: nat, id: string)
    requires Lawful(c) && c.ownerOk(owner) && i <= j < |steps|
    requires id in Run(c, Fresh(owner), steps[..i]).actions
    requires !Run(c, Fresh(owner), steps[..i]).actions[id].state.Reserved?
    ensures !ClaimSucceeds(c, Run(c, Fresh(owner), steps[..j]), steps[j], id)
  {
    var a, b := Run(c, Fresh(owner), steps[..i]), Run(c, Fresh(owner), steps[..j]);
    assert steps[..j][..i] == steps[..i];
    ReachableConsistent(c, owner, steps[..j], i);
    assert ActionKept(a.actions[id], b.actions[id], a.lastSeen);
    if ClaimSucceeds(c, b, steps[j], id) {
      ClaimMoves(c, b, steps[j], id);
    }
  }

  // ------------------------------------------------------------------ duplicate proposals

  /** Whichever matching row the duplicate lookup returns, it leads to the same answer. */
  lemma LookupIrrelevant(l: Ledger, p: PreparedAction, row: string)
    requires Keyed(l) && row in l.actions && Collides(l.actions[row].action, p)
    ensures l.actions[row].action == p <==> p.actionId in l.actions && l.actions[p.actionId].action == p
    ensures l.actions[row].action == p ==> row == p.actionId
  {
    if p.actionId in l.actions && l.actions[p.actionId].action == p {
      assert SameRequest(l.actions[row].action, l.actions[p.actionId].action) || row == p.actionId;
    }
  }

  /** An accepted proposal, repeated at any later accepted time, is answered from its own row for free. */
  lemma ReserveAgain(c: Contracts, l: Ledger, call: Call, steps: seq<Step>, again: Call)
    requires Lawful(c) && Consistent(c, l)
    requires call.Reserve? && again.Reserve? && again.action == call.action && Apply(c, l, call).reply.Ok?
    requires Run(c, Apply(c, l, call).ledger, steps).lastSeen <= again.now
    ensures var m := Run(c, Apply(c, l, call).ledger, steps);
      var p := c.canonAction(call.action).value;
      && p.actionId in m.actions && m.actions[p.actionId].action == p
      && Apply(c, m, again) == Tx(m.(lastSeen := again.now), Ok(OfAction(m.actions[p.actionId])))
  {
    var n := Apply(c, l, call).ledger;
    var m := Run(c, n, steps);
    var p := c.canonAction(call.action).value;
    AfterCall(c, l, call, steps);
    ReservedIsStored(c, l, call);
    assert ActionKept(n.actions[p.actionId], m.actions[p.actionId], n.lastSeen);
    DuplicateAnswered(c, m, again);
  }

  lemma AfterCall(c: Contracts, l: Ledger, call: Call, steps: seq<Step>)
    requires Lawful(c) && Consistent(c, l)
    ensures var n := Apply(c, l, call).ledger;
      Evolves(n, Run(c, n, steps)) && Metadata(c, Run(c, n, steps)).None?
  {
    var n := Apply(c, l, call).ledger;
    ApplyKept(c, l, call);
    RunKept(c, n, steps);
  }

  lemma DuplicateAnswered(c: Contracts, m: Ledger, call: Call)
    requires call.Reserve? && c.canonAction(call.action).Ok?
    requires Metadata(c, m).None? && m.lastSeen <= call.now
    requires var p := c.canonAction(call.action).value;
      p.owner == m.owner && p.actionId in m.actions && m.actions[p.actionId].action == p
    ensures var p := c.canonAction(call.action).value;
      Apply(c, m, call) == Tx(m.(lastSeen := call.now), Ok(OfAction(m.actions[p.actionId])))
  {
    var p := c.canonAction(call.action).value;
    assert Collides(m.actions[p.actionId].action, p);
  }

  lemma ReservedIsStored(c: Contracts, l: Ledger, call: Call)
    requires call.Reserve? && Apply(c, l, call).reply.Ok?
    ensures c.canonAction(call.action).Ok?
    ensures var n := Apply(c, l, call).ledger;
      var p := c.canonAction(call.action).value;
      p.owner == n.owner && p.actionId in n.actions && n.actions[p.actionId].action == p
  {
  }

  // ------------------------------------------------------------------ attenuation

  /** Authority never widens downward: an action is inside the grant of every ancestor it charges. */
  lemma Attenuated(c: Contracts, l: Ledger, id: string, s: string)
    requires Lawful(c) && Consistent(c, l) && id in Under(l, s)
    ensures Within(l.actions[id].action, l.scopes[s].grant)
    ensures l.actions[id].reservedAt < l.actions[id].evidence.expiresAt <= l.scopes[s].grant.expiresAt
  {
    assert ActionRow(c, l, id);
    var r := l.actions[id];
    AdmittedWithin(c, r.evidence, l.scopes[r.action.scopeId].grant, r.action, r.reservedAt);
    LineNarrows(c, l.scopes, s, r.action.scopeId);
    WithinWider(r.action, l.scopes[r.action.scopeId].grant, l.scopes[s].grant);
  }

  lemma AdmittedWithin(c: Contracts, e: AdmissionEvidence, g: ScopeGrant, a: PreparedAction, t: int)
    requires Lawful(c) && c.admits(e, g, a, t).None?
    ensures Within(a, g) && t < e.expiresAt <= g.expiresAt
  {
  }

  lemma WithinWider(a: PreparedAction, g: ScopeGrant, wider: ScopeGrant)
    requires Within(a, g) && NoWider(g, wider)
    ensures Within(a, wider)
  {
  }

  /** Charged resources are always among the resources a scope was granted. */
  lemma ChargedWithinGrant(c: Contracts, l: Ledger, s: string)
    requires Lawful(c) && Consistent(c, l) && s in l.scopes
    ensures forall r :: r in l.scopes[s].chargedResources ==> r in l.scopes[s].grant.resources
  {
    assert Charged(l, s);
    forall r | r in l.scopes[s].chargedResources ensures r in l.scopes[s].grant.resources {
      var id :| id in Under(l, s) && l.actions[id].action.resource == r;
      Attenuated(c, l, id, s);
    }
  }

  // ------------------------------------------------------------------ windows

  /** The scope existed at that time, was inside its window and was not revoked before. */
  ghost predicate StoodAt(r: ScopeRecord, t: int) {
    r.issuedAt <= t && r.grant.notBefore <= t < r.grant.expiresAt && (r.revokedAt.Some? ==> t <= r.revokedAt.value)
  }

  lemma ScopesStood(c: Contracts, l: Ledger, a: string, s: string)
    requires Tables(c, l) && Above(l.scopes, a, s)
    ensures l.scopes[a].issuedAt <= l.scopes[s].issuedAt
    ensures a != s ==> StoodAt(l.scopes[a], l.scopes[s].issuedAt)
  {
    assert ScopeRow(l, s);
  }

  lemma ActionsStood(c: Contracts, l: Ledger, a: string, id: string)
    requires Tables(c, l) && id in l.actions && Above(l.scopes, a, l.actions[id].action.scopeId)
    ensures var r := l.actions[id];
      && StoodAt(l.scopes[a], r.reservedAt)
      && (r.dispatchClaimedAt.Some? ==>
            && r.reservedAt <= r.dispatchClaimedAt.value < r.evidence.expiresAt
            && StoodAt(l.scopes[a], r.dispatchClaimedAt.value))
      && (r.finishedAt.Some? ==> r.reservedAt <= r.finishedAt.value <= l.lastSeen)
  {
    assert ActionRow(c, l, id);
    ScopesStood(c, l, a, l.actions[id].action.scopeId);
  }

  /**
   * In every reachable ledger, whenever a scope was issued, an attempt charged or a dispatch claimed,
   * every scope above it existed, was inside its window and had not been revoked.
   */
  lemma WithinWindows(c: Contracts, owner: AuthorityOwner, steps: seq<Step>, a: string)
    requires Lawful(c) && c.ownerOk(owner)
    ensures var l := Run(c, Fresh(owner), steps);
      && Forest(l.scopes)
      && (forall s :: Above(l.scopes, a, s) && a != s ==> StoodAt(l.scopes[a], l.scopes[s].issuedAt))
      && (forall id :: id in Under(l, a) ==>
            && StoodAt(l.scopes[a], l.actions[id].reservedAt)
            && (l.actions[id].dispatchClaimedAt.Some? ==> StoodAt(l.scopes[a], l.actions[id].dispatchClaimedAt.value)))
  {
    var l := Run(c, Fresh(owner), steps);
    ReachableConsistent(c, owner, steps, 0);
    forall s | Above(l.scopes, a, s) && a != s ensures StoodAt(l.scopes[a], l.scopes[s].issuedAt) {
      ScopesStood(c, l, a, s);
    }
    forall id | id in Under(l, a)
      ensures StoodAt(l.scopes[a], l.actions[id].reservedAt)
      ensures l.actions[id].dispatchClaimedAt.Some? ==> StoodAt(l.scopes[a], l.actions[id].dispatchClaimedAt.value)
    {
      ActionsStood(c, l, a, id);
    }
  }

  // ------------------------------------------------------------------ the shipped contracts

  /** Everything above holds of the ledger with its own contract checks, whatever its codec computes. */
  lemma ShippedLedger(codec: ScopeContracts.Codec, owner: AuthorityOwner, steps: seq<Step>)
    requires ScopeContracts.OwnerOk(owner)
    ensures Lawful(ScopeContracts.Standard(codec))
    ensures Consistent(ScopeContracts.Standard(codec), Run(ScopeContracts.Standard(codec), Fresh(owner), steps))
  {
    ScopeContracts.StandardLawful(codec);
    ReachableConsistent(ScopeContracts.Standard(codec), owner, steps, 0);
  }
}
