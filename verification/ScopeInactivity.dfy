/** A revoked scope, or one whose expiry has once been observed, is inactive for good. */
module ScopeInactivity {
  import opened Wrappers
  import opened Order
  import opened ScopeTypes
  import opened ScopeForest
  import opened ScopeConsistency
  import opened ScopeEvolution
  import opened ScopeLedger
  import opened ScopeSteps
  import opened ScopeTableSteps
  import opened ScopeChargeSteps
  import opened ScopeRuns
  import opened ScopeTheorems

  /** Revoked, or some recorded time has reached the expiry. */
  ghost predicate Dead(l: Ledger, s: string) {
    s in l.scopes && (l.scopes[s].revokedAt.Some? || l.lastSeen >= l.scopes[s].grant.expiresAt)
  }

  ghost function ScopesUnder(l: Ledger, s: string): set<string>
    requires Forest(l.scopes)
  {
    set x | x in l.scopes && Above(l.scopes, s, x)
  }

  ghost function ClaimedUnder(l: Ledger, s: string): set<string>
    requires Forest(l.scopes)
  {
    set a | a in Under(l, s) && l.actions[a].dispatchClaimedAt.Some?
  }

  /** No scope, attempt or dispatch claim was added below `s`. */
  ghost predicate Quiet(a: Ledger, b: Ledger, s: string) {
    && Forest(a.scopes) && Forest(b.scopes)
    && ScopesUnder(b, s) == ScopesUnder(a, s)
    && Under(b, s) == Under(a, s)
    && ClaimedUnder(b, s) == ClaimedUnder(a, s)
  }

  lemma DeadForever(a: Ledger, b: Ledger, s: string)
    requires Dead(a, s) && Evolves(a, b)
    ensures Dead(b, s)
  {
  }

  lemma DeadNotActive(l: Ledger, s: string)
    requires Dead(l, s)
    ensures !Active(l.scopes[s], l.lastSeen)
  {
  }

  /** Enough to look at new scopes, and at actions whose claim mark moved. */
  lemma QuietIf(a: Ledger, b: Ledger, s: string)
    requires Forest(a.scopes) && Forest(b.scopes) && Evolves(a, b)
    requires forall id :: id in a.actions ==> a.actions[id].action.scopeId in a.scopes
    requires forall x :: x in b.scopes && x !in a.scopes ==> !Above(b.scopes, s, x)
    requires forall id :: id in b.actions ==>
      || !Above(b.scopes, s, b.actions[id].action.scopeId)
      || (id in a.actions && b.actions[id].dispatchClaimedAt == a.actions[id].dispatchClaimedAt)
    ensures Quiet(a, b, s)
  {
    LinesStable(a.scopes, b.scopes);
    assert ScopesUnder(b, s) == ScopesUnder(a, s);
    assert Under(b, s) == Under(a, s);
  }

  lemma QuietIssue(c: Contracts, l: Ledger, g: ScopeGrant, s: string, b: Ledger)
    requires Tables(c, l) && Issuable(c, l, g) && Dead(l, s)
    requires b == Stored(l, IssuedRow(c, l, g), ScopeIssued) && Forest(b.scopes) && Evolves(l, b)
    ensures Quiet(l, b, s)
  {
    if Above(b.scopes, s, g.scopeId) {
      IssuedLine(c, l, g, s);
      DeadNotActive(l, s);
      assert false;
    }
    ActionScopes(c, l);
    QuietIf(l, b, s);
  }

  lemma QuietReserve(c: Contracts, l: Ledger, p: PreparedAction, e: AdmissionEvidence, s: string, b: Ledger)
    requires Tables(c, l) && Reservable(c, l, p, e) && Dead(l, s)
    requires b == Booked(c, l, p, e) && Forest(b.scopes) && Evolves(l, b)
    ensures Quiet(l, b, s)
  {
    LinesStable(l.scopes, b.scopes);
    if Above(b.scopes, s, p.scopeId) {
      DeadNotActive(l, s);
      assert false;
    }
    ActionScopes(c, l);
    QuietIf(l, b, s);
  }

  lemma QuietClaim(c: Contracts, l: Ledger, id: string, r: ActionRecord, s: string, b: Ledger)
    requires Tables(c, l) && id in l.actions && r.action == l.actions[id].action && Dead(l, s)
    requires b == Moved(l, id, r, ClaimRecorded, Some(l.lastSeen)) && Evolves(l, b)
    requires forall x :: Above(l.scopes, x, r.action.scopeId) ==> Active(l.scopes[x], l.lastSeen)
    ensures Quiet(l, b, s)
  {
    if Above(b.scopes, s, r.action.scopeId) {
      DeadNotActive(l, s);
      assert false;
    }
    ActionScopes(c, l);
    QuietIf(l, b, s);
  }

  lemma QuietSelf(l: Ledger, s: string)
    requires Forest(l.scopes)
    ensures Quiet(l, l, s)
  {
  }

  /** Issuing a known scope again leaves the tables as they are. */
  lemma IssueTxAgain(c: Contracts, l: Ledger, g: ScopeGrant, guard: Guard)
    requires g.scopeId in l.scopes && LoadScope(c, l.scopes, g.scopeId) == Ok(l.scopes[g.scopeId])
    requires IssueTx(c, l, g, guard, l.lastSeen).reply.Ok?
    ensures IssueTx(c, l, g, guard, l.lastSeen).ledger == l
  {
  }

  lemma QuietIssueTx(c: Contracts, l: Ledger, g: ScopeGrant, guard: Guard, s: string, b: Ledger)
    requires Lawful(c) && Consistent(c, l) && c.canonGrant(g) == Ok(g) && g.owner == l.owner && Dead(l, s)
    requires IssueTx(c, l, g, guard, l.lastSeen).reply.Ok? && b == IssueTx(c, l, g, guard, l.lastSeen).ledger
    requires Forest(b.scopes) && Evolves(l, b)
    ensures Quiet(l, b, s)
  {
    if g.scopeId in l.scopes {
      LoadsScope(c, l, g.scopeId);
      IssueTxAgain(c, l, g, guard);
      QuietSelf(l, s);
    } else {
      QuietNewScope(c, l, g, guard, s, b);
    }
  }

  lemma QuietNewScope(c: Contracts, l: Ledger, g: ScopeGrant, guard: Guard, s: string, b: Ledger)
    requires Lawful(c) && Tables(c, l) && History(l) && c.canonGrant(g) == Ok(g) && g.owner == l.owner
    requires Dead(l, s) && g.scopeId !in l.scopes
    requires IssueTx(c, l, g, guard, l.lastSeen).reply.Ok? && b == IssueTx(c, l, g, guard, l.lastSeen).ledger
    requires Forest(b.scopes) && Evolves(l, b)
    ensures Quiet(l, b, s)
  {
    NextSequence(l);
    IssueTxChecks(c, l, g, guard);
    QuietIssue(c, l, g, s, b);
  }

  lemma QuietReserveTx(c: Contracts, l: Ledger, p: PreparedAction, e: AdmissionEvidence, guard: Guard, s: string,
                       b: Ledger)
    requires Lawful(c) && Consistent(c, l) && c.canonAction(p) == Ok(p) && p.owner == l.owner && Dead(l, s)
    requires ReserveTx(c, l, p, e, guard, l.lastSeen).reply.Ok? && b == ReserveTx(c, l, p, e, guard, l.lastSeen).ledger
    requires Forest(b.scopes) && Evolves(l, b)
    ensures Quiet(l, b, s)
  {
    if exists id :: id in l.actions && Collides(l.actions[id].action, p) {
      ReserveTxDuplicate(c, l, p, e, guard, l.lastSeen);
      QuietSelf(l, s);
    } else {
      NextSequence(l);
      ReserveTxChecks(c, l, p, e, guard);
      QuietReserve(c, l, p, e, s, b);
    }
  }

  lemma QuietClaimTx(c: Contracts, l: Ledger, id: string, digest: string, guard: Guard, s: string, b: Ledger)
    requires Lawful(c) && Consistent(c, l) && Dead(l, s)
    requires ClaimTx(c, l, id, digest, guard, l.lastSeen).reply.Ok?
      && b == ClaimTx(c, l, id, digest, guard, l.lastSeen).ledger
    requires Evolves(l, b)
    ensures Quiet(l, b, s)
  {
    LoadsAction(c, l, id);
    NextSequence(l);
    ClaimTxChecks(c, l, id, digest, guard);
    QuietClaim(c, l, id, b.actions[id], s, b);
  }

  /** Finishing and revoking add nothing anywhere. */
  lemma OthersAdd(c: Contracts, l: Ledger, call: Call)
    requires call.Finish? || call.Revoke?
    ensures var b := Body(c, l, call).ledger;
      && b.scopes.Keys == l.scopes.Keys && b.actions.Keys == l.actions.Keys
      && forall id :: id in b.actions ==> b.actions[id].dispatchClaimedAt == l.actions[id].dispatchClaimedAt
  {
  }

  lemma QuietOthers(c: Contracts, l: Ledger, call: Call, s: string, b: Ledger)
    requires Tables(c, l) && (call.Finish? || call.Revoke?)
    requires b == Body(c, l, call).ledger && Forest(b.scopes) && Evolves(l, b)
    ensures Quiet(l, b, s)
  {
    OthersAdd(c, l, call);
    ActionScopes(c, l);
    QuietIf(l, b, s);
  }

  /** A transaction that succeeds at the observed time adds nothing below a dead scope. */
  lemma QuietBody(c: Contracts, l: Ledger, call: Call, s: string, b: Ledger)
    requires Lawful(c) && Consistent(c, l) && Prepared(c, l, call) && call.now == l.lastSeen && Dead(l, s)
    requires Body(c, l, call).reply.Ok? && b == Body(c, l, call).ledger
    requires Forest(b.scopes) && Evolves(l, b)
    ensures Quiet(l, b, s)
  {
    match call
    case IssueScope(g, guard, now) => QuietIssueTx(c, l, g, guard, s, b);
    case Reserve(p, e, guard, now) => QuietReserveTx(c, l, p, e, guard, s, b);
    case ClaimDispatch(id, digest, guard, now) => QuietClaimTx(c, l, id, digest, guard, s, b);
    case _ => QuietOthers(c, l, call, s, b);
  }

  lemma QuietTick(l: Ledger, now: int, s: string)
    requires Forest(l.scopes)
    ensures Quiet(l, l.(lastSeen := now), s)
  {
    assert Under(l.(lastSeen := now), s) == Under(l, s);
  }

  lemma QuietSeen(c: Contracts, seen: Ledger, call: Call, s: string)
    requires Lawful(c) && Consistent(c, seen) && Prepared(c, seen, call) && Dead(seen, s) && call.now == seen.lastSeen
    ensures Body(c, seen, call).reply.Ok? ==> Quiet(seen, Body(c, seen, call).ledger, s)
  {
    if Body(c, seen, call).reply.Ok? {
      BodyKept(c, seen, call);
      QuietBody(c, seen, call, s, Body(c, seen, call).ledger);
    }
  }

  lemma QuietMutate(c: Contracts, l: Ledger, call: Call, s: string, b: Ledger)
    requires Lawful(c) && Consistent(c, l) && Prepared(c, l, call) && Dead(l, s) && b == Mutate(c, l, call).ledger
    ensures Quiet(l, b, s)
  {
    MutateForm(c, l, call);
    if b == l {
      QuietSelf(l, s);
    } else {
      QuietLater(c, l, call, s, b);
    }
  }

  lemma QuietLater(c: Contracts, l: Ledger, call: Call, s: string, b: Ledger)
    requires Lawful(c) && Consistent(c, l) && Prepared(c, l, call) && Dead(l, s) && l.lastSeen <= call.now
    requires var seen := l.(lastSeen := call.now);
      b == seen || (Body(c, seen, call).reply.Ok? && b == Body(c, seen, call).ledger)
    ensures Quiet(l, b, s)
  {
    var seen := l.(lastSeen := call.now);
    Tick(c, l, call.now);
    QuietTick(l, call.now, s);
    if b != seen {
      QuietSeen(c, seen, call, s);
      QuietTransitive(l, seen, b, s);
    }
  }

  lemma QuietApply(c: Contracts, l: Ledger, call: Call, s: string)
    requires Lawful(c) && Consistent(c, l) && Dead(l, s)
    ensures Quiet(l, Apply(c, l, call).ledger, s)
  {
    QuietSelf(l, s);
    match call
    case IssueScope(grant, guard, now) =>
      if c.canonGrant(grant).Ok? && c.canonGrant(grant).value.owner == l.owner {
        QuietMutate(c, l, call.(grant := c.canonGrant(grant).value), s, Apply(c, l, call).ledger);
      }
    case Reserve(action, evidence, guard, now) =>
      if c.canonAction(action).Ok? && c.canonAction(action).value.owner == l.owner {
        QuietMutate(c, l, call.(action := c.canonAction(action).value), s, Apply(c, l, call).ledger);
      }
    case _ => QuietMutate(c, l, call, s, Apply(c, l, call).ledger);
  }

  lemma QuietRecovered(c: Contracts, l: Ledger, m: Ledger, s: string)
    requires Tables(c, l) && Evolves(l, m) && Recovered(l, m, Listing(l.actions.Keys))
    ensures Quiet(l, m, s)
  {
    ActionScopes(c, l);
    QuietIf(l, m, s);
  }

  lemma QuietNext(c: Contracts, l: Ledger, step: Step, s: string)
    requires Lawful(c) && Consistent(c, l) && Dead(l, s)
    ensures Quiet(l, Next(c, l, step), s)
  {
    QuietSelf(l, s);
    match step
    case Invoke(call) => QuietApply(c, l, call, s);
    case Reopen(owner) =>
      OpenExact(c, l, owner);
      if Open(c, l, owner).Ok? { QuietRecovered(c, l, Open(c, l, owner).value, s); }
    case CrashBeforeCommit =>
  }

  /**
   * Inactivity is irreversible: below a dead scope no run, however long, whatever its clock, failures
   * and restarts, ever adds a scope, charges an attempt or claims a dispatch again.
   */
  lemma {:induction false} DeadStaysQuiet(c: Contracts, l: Ledger, steps: seq<Step>, s: string)
    requires Lawful(c) && Consistent(c, l) && Dead(l, s)
    ensures Dead(Run(c, l, steps), s) && Quiet(l, Run(c, l, steps), s)
    decreases |steps|
  {
    if steps == [] {
      QuietSelf(l, s);
    } else {
      var m := Run(c, l, steps[..|steps| - 1]);
      DeadStaysQuiet(c, l, steps[..|steps| - 1], s);
      DeadNext(c, l, steps, s);
      QuietTransitive(l, m, Run(c, l, steps), s);
    }
  }

  lemma DeadNext(c: Contracts, l: Ledger, steps: seq<Step>, s: string)
    requires Lawful(c) && Consistent(c, l) && |steps| > 0 && Dead(Run(c, l, steps[..|steps| - 1]), s)
    ensures Dead(Run(c, l, steps), s)
    ensures Quiet(Run(c, l, steps[..|steps| - 1]), Run(c, l, steps), s)
  {
    var m := Run(c, l, steps[..|steps| - 1]);
    RunKept(c, l, steps[..|steps| - 1]);
    NextKept(c, m, steps[|steps| - 1]);
    QuietNext(c, m, steps[|steps| - 1], s);
    DeadForever(m, Run(c, l, steps), s);
  }

  lemma QuietTransitive(a: Ledger, b: Ledger, d: Ledger, s: string)
    requires Quiet(a, b, s) && Quiet(b, d, s)
    ensures Quiet(a, d, s)
  {
  }

  lemma ApplyEvolves(c: Contracts, l: Ledger, call: Call)
    requires Lawful(c) && Consistent(c, l)
    ensures Evolves(l, Apply(c, l, call).ledger) && Metadata(c, l).None?
  {
    ApplyKept(c, l, call);
  }

  lemma ExpiredDead(a: Ledger, b: Ledger, s: string)
    requires Evolves(a, b) && s in a.scopes && a.scopes[s].grant.expiresAt <= b.lastSeen
    ensures Dead(b, s)
  {
    assert ScopeKept(a.scopes[s], b.scopes[s], a.lastSeen);
  }

  /** The argument canonicalises and names the ledger's owner, so the call reaches its transaction. */
  ghost predicate Reaches(c: Contracts, l: Ledger, call: Call) {
    match call
    case IssueScope(grant, _, _) => c.canonGrant(grant).Ok? && c.canonGrant(grant).value.owner == l.owner
    case Reserve(action, _, _, _) => c.canonAction(action).Ok? && c.canonAction(action).value.owner == l.owner
    case _ => true
  }

  /**
   * Any call at or after a scope's expiry that reaches its transaction kills the scope, though it may be
   * refused: its time is kept. A call that does not leaves the scope as it was.
   */
  lemma FailureExpires(c: Contracts, l: Ledger, call: Call, s: string)
    requires Lawful(c) && Consistent(c, l) && s in l.scopes
    requires l.lastSeen <= call.now && l.scopes[s].grant.expiresAt <= call.now
    ensures Dead(Apply(c, l, call).ledger, s) <==> Dead(l, s) || Reaches(c, l, call)
  {
    ApplyEvolves(c, l, call);
    ApplyRecordsTime(c, l, call);
    if Reaches(c, l, call) { ExpiredDead(l, Apply(c, l, call).ledger, s); }
  }

  lemma ApplyRecordsTime(c: Contracts, l: Ledger, call: Call)
    requires Metadata(c, l).None? && l.lastSeen <= call.now
    ensures Apply(c, l, call).ledger == l || Reaches(c, l, call)
    ensures Reaches(c, l, call) ==> Apply(c, l, call).ledger.lastSeen == call.now
  {
  }
}
