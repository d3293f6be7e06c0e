/** What the SSH host promises over every interleaving of grants, probes, restarts and broker messages. */
module SshTheorems {
  import opened Wrappers
  import opened SshLedger

  // ------------------------------------------------------------------ what every step keeps

  ghost predicate Progress(a: GrantState, b: GrantState) {
    b == a || a == Granted || (a == Reserved && b != Granted)
  }

  ghost predicate RowKept(a: Grant, b: Grant) {
    && b.host == a.host && b.principal == a.principal && b.expiresAt == a.expiresAt && b.maxSeconds == a.maxSeconds
    && (a.revoked ==> b.revoked)
    && Progress(a.state, b.state)
    && (a.state != Granted ==> b.reservation == a.reservation)
  }

  /** Rows, receipts, authority and nonces are never removed or rewritten; grants only move forward. */
  ghost predicate Later(a: Host, b: Host) {
    && (forall id :: id in a.grants ==> id in b.grants && RowKept(a.grants[id], b.grants[id]))
    && a.receipts <= b.receipts
    && (forall id :: id in a.authority ==> id in b.authority && b.authority[id] == a.authority[id])
    && (forall n :: n in a.nonces ==> n in b.nonces)
  }

  lemma LaterTransitive(a: Host, b: Host, c: Host)
    requires Later(a, b) && Later(b, c)
    ensures Later(a, c)
  {
  }

  lemma ReserveLater(s: Host, id: string, host: string, principal: string, now: real, reservation: string,
                     started: real, empty: string)
    ensures Later(s, ReserveTx(s, id, host, principal, now, reservation, started, empty).0)
  {
  }

  lemma FinishLater(s: Host, claim: Claim, f: Finding, output: Output, now: real)
    ensures Later(s, FinishTx(s, claim, f, output, now).0)
  {
  }

  lemma RestartLater(s: Host, ids: seq<string>, empty: string)
    requires forall id :: id in ids ==> id in s.grants
    ensures Later(s, RecoverTx(s, ids, empty))
  {
  }

  lemma ControlLater(s: Host, host: string, principal: string, m: Message, verified: real, locked: real)
    ensures Later(s, OrElse(ControlTx(s, host, principal, m, verified, locked), s))
  {
  }

  lemma NextLater(s: Host, step: Step, empty: string)
    ensures Later(s, Next(s, step, empty))
  {
    match step
    case CliGrant(id, host, principal, expiresAt, maxSeconds, t0, t1) =>
    case CliRevoke(id) =>
    case Reserve(id, host, principal, now, reservation, started) =>
      ReserveLater(s, id, host, principal, now, reservation, started, empty);
    case Finish(claim, finding, output, now) => FinishLater(s, claim, finding, output, now);
    case Restart(order) => if Enumerates(s, order) { RestartLater(s, order, empty); }
    case Control(host, principal, message, verified, locked) =>
      ControlLater(s, host, principal, message, verified, locked);
  }

  lemma {:induction false} RunLater(s: Host, steps: seq<Step>, empty: string)
    ensures Later(s, Run(s, steps, empty))
    decreases |steps|
  {
    if steps != [] {
      var t := Run(s, steps[..|steps| - 1], empty);
      RunLater(s, steps[..|steps| - 1], empty);
      NextLater(t, steps[|steps| - 1], empty);
      LaterTransitive(s, t, Run(s, steps, empty));
    }
  }

  lemma {:induction false} RunAppend(s: Host, a: seq<Step>, b: seq<Step>, empty: string)
    ensures Run(s, a + b, empty) == Run(Run(s, a, empty), b, empty)
    decreases |b|
  {
    if b == [] {
      assert a + b == a;
    } else {
      var n := |b| - 1;
      RunAppend(s, a, b[..n], empty);
      assert (a + b)[..|a + b| - 1] == a + b[..n];
    }
  }

  /** The state before step `i` and the state before a later step `j` of one run. */
  lemma BetweenLater(s: Host, steps: seq<Step>, i: nat, j: nat, empty: string)
    requires i <= j <= |steps|
    ensures Later(Run(s, steps[..i], empty), Run(s, steps[..j], empty))
  {
    RunAppend(s, steps[..i], steps[i..j], empty);
    assert steps[..i] + steps[i..j] == steps[..j];
    RunLater(Run(s, steps[..i], empty), steps[i..j], empty);
  }

  lemma After(s: Host, steps: seq<Step>, i: nat, empty: string)
    requires i < |steps|
    ensures Run(s, steps[..i + 1], empty) == Next(Run(s, steps[..i], empty), steps[i], empty)
  {
    assert steps[..i + 1][..i] == steps[..i];
  }

  // ------------------------------------------------------------------ one reservation

  ghost predicate Reserves(s: Host, step: Step, id: string, empty: string) {
    step.Reserve? && step.id == id &&
    ReserveTx(s, id, step.host, step.principal, step.now, step.reservation, step.started, empty).1.Some?
  }

  /** No grant is ever reserved twice, whatever is restarted, revoked or presented in between. */
  lemma ReservedOnce(s: Host, steps: seq<Step>, i: nat, j: nat, id: string, empty: string)
    requires i < j < |steps| && Reserves(Run(s, steps[..i], empty), steps[i], id, empty)
    ensures !Reserves(Run(s, steps[..j], empty), steps[j], id, empty)
  {
    After(s, steps, i, empty);
    BetweenLater(s, steps, i + 1, j, empty);
  }

  // ------------------------------------------------------------------ receipts

  /** A receipt that says how a reservation ended, as opposed to a denial or a lost reservation. */
  predicate Settles(r: Receipt) {
    r.status != Denied && r.code != ReservationLost
  }

  function Settling(receipts: seq<Receipt>, id: string): nat {
    if receipts == [] then 0
    else
      var last := receipts[|receipts| - 1];
      Settling(receipts[..|receipts| - 1], id) + if last.grantId == id && Settles(last) then 1 else 0
  }

  predicate Ended(state: GrantState) {
    state == Completed || state == Unknown
  }

  ghost predicate EndedIn(s: Host, id: string) {
    id in s.grants && Ended(s.grants[id].state)
  }

  /** The receipt that settles a grant says which way it ended. */
  ghost predicate Agrees(s: Host, r: Receipt) {
    Settles(r) ==>
      r.grantId in s.grants && s.grants[r.grantId].state == if r.code == RestartUnknown then Unknown else Completed
  }

  /** Broker authority always has its grant, with the same expiry. */
  ghost predicate SoundAuthority(s: Host) {
    forall id :: id in s.authority ==> id in s.grants && s.grants[id].expiresAt == s.authority[id].expiresAt
  }

  ghost predicate Sound(s: Host) {
    && SoundAuthority(s)
    && (forall id :: Settling(s.receipts, id) == if EndedIn(s, id) then 1 else 0)
    && (forall i :: 0 <= i < |s.receipts| ==> Agrees(s, s.receipts[i]))
  }

  lemma NotedSettling(receipts: seq<Receipt>, r: Receipt, id: string)
    ensures Settling(receipts + [r], id) == Settling(receipts, id) + if r.grantId == id && Settles(r) then 1 else 0
  {
    assert (receipts + [r])[..|receipts|] == receipts;
  }

  /** A step that adds no receipt and ends no grant. */
  lemma QuietSound(s: Host, t: Host)
    requires Sound(s) && Later(s, t) && t.receipts == s.receipts && SoundAuthority(t)
    requires forall id :: id in t.grants && Ended(t.grants[id].state) ==>
      id in s.grants && t.grants[id].state == s.grants[id].state
    ensures Sound(t)
  {
    forall id ensures EndedIn(t, id) <==> EndedIn(s, id) {
    }
  }

  /** A step that adds one receipt, and ends the grant it settles. */
  lemma NotedSound(s: Host, t: Host, r: Receipt)
    requires Sound(s) && Later(s, t) && t.receipts == s.receipts + [r] && t.authority == s.authority
    requires t.grants.Keys == s.grants.Keys
    requires forall id :: id in s.grants ==>
      (t.grants[id].state == s.grants[id].state || (Settles(r) && id == r.grantId))
    requires Settles(r) ==>
      && r.grantId in s.grants && s.grants[r.grantId].state == Reserved
      && r.code != RestartUnknown && t.grants[r.grantId].state == Completed
    ensures Sound(t)
  {
    forall id ensures Settling(t.receipts, id) == if EndedIn(t, id) then 1 else 0 {
      NotedSettling(s.receipts, r, id);
    }
    forall i | 0 <= i < |t.receipts| ensures Agrees(t, t.receipts[i]) {
      if i < |s.receipts| { assert t.receipts[i] == s.receipts[i]; assert Agrees(s, s.receipts[i]); }
    }
  }

  lemma {:induction false} RestartSettling(s: Host, ids: seq<string>, empty: string, id: string)
    requires forall x :: x in ids ==> x in s.grants
    requires forall i, j :: 0 <= i < j < |ids| ==> ids[i] != ids[j]
    ensures Settling(s.receipts + RestartReceipts(s, ids, empty), id) ==
      Settling(s.receipts, id) + if id in ids then 1 else 0
    decreases |ids|
  {
    if ids == [] {
      assert s.receipts + RestartReceipts(s, ids, empty) == s.receipts;
    } else {
      var n := |ids| - 1;
      var r := RestartReceipt(s, ids[n], empty);
      var before := RestartReceipts(s, ids[..n], empty);
      RestartSettling(s, ids[..n], empty, id);
      assert s.receipts + (before + [r]) == (s.receipts + before) + [r];
      NotedSettling(s.receipts + before, r, id);
      LastApart(ids, id);
    }
  }

  lemma LastApart(ids: seq<string>, id: string)
    requires |ids| > 0 && forall i, j :: 0 <= i < j < |ids| ==> ids[i] != ids[j]
    ensures id in ids <==> id in ids[..|ids| - 1] || id == ids[|ids| - 1]
    ensures ids[|ids| - 1] !in ids[..|ids| - 1]
  {
    assert ids == ids[..|ids| - 1] + [ids[|ids| - 1]];
  }

  lemma {:induction false} RestartAgrees(s: Host, ids: seq<string>, empty: string)
    requires forall x :: x in ids ==> x in s.grants
    ensures forall i :: 0 <= i < |RestartReceipts(s, ids, empty)| ==>
      RestartReceipts(s, ids, empty)[i].code == RestartUnknown && RestartReceipts(s, ids, empty)[i].grantId in ids
    decreases |ids|
  {
    if ids != [] {
      RestartAgrees(s, ids[..|ids| - 1], empty);
    }
  }

  lemma RestartSound(s: Host, ids: seq<string>, empty: string)
    requires Sound(s) && Enumerates(s, ids)
    ensures Sound(RecoverTx(s, ids, empty))
  {
    var t := RecoverTx(s, ids, empty);
    forall id ensures Settling(t.receipts, id) == if EndedIn(t, id) then 1 else 0 {
      RestartSettling(s, ids, empty, id);
    }
    RestartAgrees(s, ids, empty);
    forall i | 0 <= i < |t.receipts| ensures Agrees(t, t.receipts[i]) {
      if i < |s.receipts| {
        assert t.receipts[i] == s.receipts[i];
        assert Agrees(s, s.receipts[i]);
      } else {
        assert t.receipts[i] == RestartReceipts(s, ids, empty)[i - |s.receipts|];
      }
    }
  }

  lemma ReserveSound(s: Host, id: string, host: string, principal: string, now: real, reservation: string,
                     started: real, empty: string)
    requires Sound(s)
    ensures Sound(ReserveTx(s, id, host, principal, now, reservation, started, empty).0)
  {
    var t := ReserveTx(s, id, host, principal, now, reservation, started, empty).0;
    ReserveLater(s, id, host, principal, now, reservation, started, empty);
    if Refusal(s, id, host, principal, now).Some? {
      NotedSound(s, t, t.receipts[|s.receipts|]);
    } else {
      QuietSound(s, t);
    }
  }

  /** What one finish writes: a settling receipt exactly when the claim still holds its grant. */
  lemma FinishForm(s: Host, claim: Claim, f: Finding, output: Output, now: real) returns (r: Receipt)
    ensures var t := FinishTx(s, claim, f, output, now).0;
      && t.receipts == s.receipts + [r] && t.authority == s.authority
      && r.grantId == claim.id && r.code != RestartUnknown && (Settles(r) <==> Holds(s, claim))
      && t.grants == if Holds(s, claim) then s.grants[claim.id := s.grants[claim.id].(state := Completed)] else s.grants
  {
    var t := FinishTx(s, claim, f, output, now).0;
    r := t.receipts[|s.receipts|];
  }

  lemma FinishSound(s: Host, claim: Claim, f: Finding, output: Output, now: real, t: Host)
    requires Sound(s) && t == FinishTx(s, claim, f, output, now).0
    ensures Sound(t)
  {
    FinishLater(s, claim, f, output, now);
    var r := FinishForm(s, claim, f, output, now);
    NotedSound(s, t, r);
  }

  lemma ControlSound(s: Host, host: string, principal: string, m: Message, verified: real, locked: real)
    requires Sound(s)
    ensures Sound(OrElse(ControlTx(s, host, principal, m, verified, locked), s))
  {
    ControlLater(s, host, principal, m, verified, locked);
    QuietSound(s, OrElse(ControlTx(s, host, principal, m, verified, locked), s));
  }

  lemma NextSound(s: Host, step: Step, empty: string)
    requires Sound(s)
    ensures Sound(Next(s, step, empty))
  {
    match step
    case Reserve(id, host, principal, now, reservation, started) =>
      ReserveSound(s, id, host, principal, now, reservation, started, empty);
    case Finish(claim, finding, output, now) => FinishSound(s, claim, finding, output, now, Next(s, step, empty));
    case Restart(order) => if Enumerates(s, order) { RestartSound(s, order, empty); }
    case Control(host, principal, message, verified, locked) =>
      ControlSound(s, host, principal, message, verified, locked);
    case CliGrant(id, host, principal, expiresAt, maxSeconds, t0, t1) =>
      NextLater(s, step, empty);
      QuietSound(s, Next(s, step, empty));
    case CliRevoke(id) =>
      NextLater(s, step, empty);
      QuietSound(s, Next(s, step, empty));
  }

  lemma {:induction false} RunSound(s: Host, steps: seq<Step>, empty: string)
    requires Sound(s)
    ensures Sound(Run(s, steps, empty))
    decreases |steps|
  {
    if steps != [] {
      RunSound(s, steps[..|steps| - 1], empty);
      NextSound(Run(s, steps[..|steps| - 1], empty), steps[|steps| - 1], empty);
    }
  }

  /**
   * Over every run: a grant has exactly one settling receipt if its reservation has ended, and none
   * before. That receipt is the restart's exactly when the grant ended UNKNOWN, so a grant never has
   * both a restart receipt and a completion.
   */
  lemma OneSettlement(steps: seq<Step>, id: string, empty: string)
    ensures var s := Run(EMPTY, steps, empty);
      && Settling(s.receipts, id) == (if EndedIn(s, id) then 1 else 0)
      && (forall i :: 0 <= i < |s.receipts| ==> Agrees(s, s.receipts[i]))
  {
    RunSound(EMPTY, steps, empty);
  }

  // ------------------------------------------------------------------ releasing a result

  ghost predicate Releases(s: Host, step: Step, id: string) {
    step.Finish? && step.claim.id == id && FinishTx(s, step.claim, step.finding, step.output, step.now).1.Some?
  }

  ghost predicate ReservesAs(s: Host, step: Step, id: string, reservation: string, empty: string) {
    Reserves(s, step, id, empty) && step.reservation == reservation
  }

  /** A reserved grant was reserved by some earlier step, under the reservation it still carries. */
  lemma {:induction false} ReservedFrom(steps: seq<Step>, id: string, reservation: string,
                                        empty: string) returns (i: nat)
    requires var s := Run(EMPTY, steps, empty);
      id in s.grants && s.grants[id].state == Reserved && s.grants[id].reservation == Some(reservation)
    ensures i < |steps| && ReservesAs(Run(EMPTY, steps[..i], empty), steps[i], id, reservation, empty)
    decreases |steps|
  {
    var n := |steps| - 1;
    var s := Run(EMPTY, steps[..n], empty);
    if id in s.grants && s.grants[id].state == Reserved {
      NextLater(s, steps[n], empty);
      i := ReservedFrom(steps[..n], id, reservation, empty);
      assert steps[..n][..i] == steps[..i];
    } else {
      BecomesReserved(s, steps[n], id, empty);
      i := n;
    }
  }

  lemma BecomesReserved(s: Host, step: Step, id: string, empty: string)
    requires !(id in s.grants && s.grants[id].state == Reserved)
    requires var t := Next(s, step, empty); id in t.grants && t.grants[id].state == Reserved
    ensures step.Reserve? && step.id == id && Refusal(s, id, step.host, step.principal, step.now).None?
    ensures Next(s, step, empty).grants[id].reservation == Some(step.reservation)
  {
    match step
    case CliGrant(x, host, principal, expiresAt, maxSeconds, t0, t1) =>
    case CliRevoke(x) =>
    case Reserve(x, host, principal, now, reservation, started) =>
    case Finish(claim, finding, output, now) => var r := FinishForm(s, claim, finding, output, now);
    case Restart(order) =>
    case Control(host, principal, m, verified, locked) =>
  }

  /**
   * A result leaves the host only for a healthy probe, on a grant that an earlier step of the run
   * reserved under that very reservation, while the grant is unrevoked and unexpired.
   */
  lemma ReleaseJustified(steps: seq<Step>, j: nat, id: string, empty: string) returns (i: nat)
    requires j < |steps| && Releases(Run(EMPTY, steps[..j], empty), steps[j], id)
    ensures i < j && ReservesAs(Run(EMPTY, steps[..i], empty), steps[i], id, steps[j].claim.reservation, empty)
    ensures var s := Run(EMPTY, steps[..j], empty);
      id in s.grants && !s.grants[id].revoked && steps[j].now < s.grants[id].expiresAt as real
    ensures steps[j].finding.Healthy?
  {
    i := ReservedFrom(steps[..j], id, steps[j].claim.reservation, empty);
    assert steps[..j][..i] == steps[..i];
  }

  /** Whatever claims are presented, and however often, a grant releases at most one result. */
  lemma ReleasedOnce(s: Host, steps: seq<Step>, i: nat, j: nat, id: string, empty: string)
    requires i < j < |steps| && Releases(Run(s, steps[..i], empty), steps[i], id)
    ensures !Releases(Run(s, steps[..j], empty), steps[j], id)
  {
    After(s, steps, i, empty);
    BetweenLater(s, steps, i + 1, j, empty);
    var r := FinishForm(Run(s, steps[..i], empty), steps[i].claim, steps[i].finding, steps[i].output, steps[i].now);
  }

  /**
   * For a claim that a run handed out, polling and the release decision agree at every later moment:
   * no cancellation is reported exactly when a healthy result would be released.
   */
  lemma CancellationAgrees(s: Host, steps: seq<Step>, i: nat, id: string, claim: Claim, now: real, result: string,
                           output: Output, empty: string)
    requires i < |steps| && Reserves(Run(s, steps[..i], empty), steps[i], id, empty)
    requires ReserveTx(Run(s, steps[..i], empty), id, steps[i].host, steps[i].principal, steps[i].now,
                       steps[i].reservation, steps[i].started, empty).1 == Some(claim)
    ensures var t := Run(s, steps, empty);
      CancellationOf(t, claim, now).None? <==> FinishTx(t, claim, Healthy(result), output, now).1 == Some(result)
  {
    After(s, steps, i, empty);
    assert steps[..|steps|] == steps;
    BetweenLater(s, steps, i + 1, |steps|, empty);
  }

  /** Once a grant is revoked it is never reserved and never releases a result. */
  lemma RevokedForGood(s: Host, steps: seq<Step>, i: nat, j: nat, id: string, empty: string)
    requires i <= j < |steps|
    requires id in Run(s, steps[..i], empty).grants && Run(s, steps[..i], empty).grants[id].revoked
    ensures !Reserves(Run(s, steps[..j], empty), steps[j], id, empty)
    ensures !Releases(Run(s, steps[..j], empty), steps[j], id)
  {
    BetweenLater(s, steps, i, j, empty);
  }

  // ------------------------------------------------------------------ broker control

  ghost predicate Applies(s: Host, step: Step) {
    step.Control? && ControlTx(s, step.host, step.principal, step.message, step.verified, step.locked).Some?
  }

  /**
   * A broker revocation is final: whether its grant came before, comes later or never comes, the grant
   * is never reserved or released afterwards, and no grant can be created under that id again.
   */
  lemma BrokerRevocationFinal(s: Host, steps: seq<Step>, i: nat, j: nat, empty: string)
    requires i < j < |steps| && Applies(Run(s, steps[..i], empty), steps[i]) && steps[i].message.verb == Revokes
    ensures var id := steps[i].message.id; var t := Run(s, steps[..j], empty);
      && !Reserves(t, steps[j], id, empty) && !Releases(t, steps[j], id)
      && (steps[j].CliGrant? && steps[j].id == id ==> Next(t, steps[j], empty) == t)
      && (steps[j].Control? && steps[j].message.verb == Grants && steps[j].message.id == id ==> !Applies(t, steps[j]))
  {
    After(s, steps, i, empty);
    RevokedForGood(s, steps, i + 1, j, steps[i].message.id, empty);
    BetweenLater(s, steps, i + 1, j, empty);
  }

  /** A nonce takes effect at most once; a replay changes nothing. */
  lemma NonceOnce(s: Host, steps: seq<Step>, i: nat, j: nat, empty: string)
    requires i < j < |steps| && Applies(Run(s, steps[..i], empty), steps[i])
    requires steps[j].Control? && steps[j].message.nonce == steps[i].message.nonce
    ensures !Applies(Run(s, steps[..j], empty), steps[j])
    ensures Run(s, steps[..j + 1], empty) == Run(s, steps[..j], empty)
  {
    After(s, steps, i, empty);
    After(s, steps, j, empty);
    BetweenLater(s, steps, i + 1, j, empty);
  }

  /**
   * Exactly when a broker revocation takes effect in a reachable state. In particular it never touches
   * a grant the command line issued, and the stored authority always has its grant.
   */
  lemma RevocationApplies(steps: seq<Step>, host: string, principal: string, m: Message, verified: real, locked: real,
                          empty: string)
    requires m.verb == Revokes
    ensures var s := Run(EMPTY, steps, empty);
      ControlTx(s, host, principal, m, verified, locked).Some? <==>
        && InWindow(m, verified) && locked < m.expiresAt as real && m.nonce !in s.nonces
        && (if m.id in s.authority then s.authority[m.id] == Authority(m.manifest, m.expiresAt) else m.id !in s.grants)
  {
    RunSound(EMPTY, steps, empty);
  }

  // ------------------------------------------------------------------ a grant and its revocation commute

  /** A grant and its revocation: one manifest, hence one id and one duration, and one expiry. */
  ghost predicate Pair(g: Message, r: Message) {
    && g.verb == Grants && r.verb == Revokes && r.nonce != g.nonce
    && r.manifest == g.manifest && r.id == g.id && r.maxSeconds == g.maxSeconds && r.expiresAt == g.expiresAt
  }

  ghost predicate Delivers(step: Step, host: string, principal: string, m: Message) {
    step.Control? && step.host == host && step.principal == principal && step.message == m
  }

  ghost predicate Timely(step: Step)
    requires step.Control?
  {
    InWindow(step.message, step.verified) && step.locked < step.message.expiresAt as real
  }

  ghost predicate Unspent(step: Step, spent: set<string>) {
    step.Control? ==> step.message.nonce !in spent
  }

  /** Two hosts that hold the same ids and authority, and the same nonces outside `spent`. */
  ghost predicate Twins(a: Host, b: Host, id: string, spent: set<string>) {
    && a.grants.Keys == b.grants.Keys && a.authority == b.authority
    && (forall n :: n !in spent ==> (n in a.nonces <==> n in b.nonces))
    && id in a.grants && id in a.authority && b.grants[id].revoked
  }

  /** Twins whose rows differ at most in whether an unused grant is revoked. */
  ghost predicate UpToRevoked(a: Host, b: Host, id: string) {
    && id in a.grants && a.grants[id].state == Granted
    && b.grants == a.grants[id := a.grants[id].(revoked := true)]
  }

  lemma ControlTwins(a: Host, b: Host, step: Step, id: string, spent: set<string>, empty: string)
    requires Twins(a, b, id, spent) && step.Control? && Unspent(step, spent)
    ensures Twins(Next(a, step, empty), Next(b, step, empty), id, spent)
  {
    var m := step.message;
    if m.nonce !in a.nonces && m.nonce !in b.nonces {
      assert ControlEffect(a.(nonces := a.nonces[m.nonce := m.digest]), step.host, step.principal, m).Some?
        == ControlEffect(b.(nonces := b.nonces[m.nonce := m.digest]), step.host, step.principal, m).Some?;
    }
  }

  lemma EffectUpToRevoked(a: Host, b: Host, id: string, host: string, principal: string, m: Message)
    requires UpToRevoked(a, b, id) && a.authority == b.authority && id in a.authority
    ensures var x, y := ControlEffect(a, host, principal, m), ControlEffect(b, host, principal, m);
      x.Some? == y.Some? && (x.Some? ==> UpToRevoked(x.value, y.value, id))
  {
    if m.id == id {
    } else if m.id in a.grants {
    } else {
      var x, y := ControlEffect(a, host, principal, m), ControlEffect(b, host, principal, m);
      if x.Some? { assert y.value.grants == x.value.grants[id := a.grants[id].(revoked := true)]; }
    }
  }

  lemma ControlUpToRevoked(a: Host, b: Host, step: Step, id: string, spent: set<string>, empty: string)
    requires Twins(a, b, id, spent) && step.Control? && Unspent(step, spent) && UpToRevoked(a, b, id)
    ensures UpToRevoked(Next(a, step, empty), Next(b, step, empty), id)
  {
    var m := step.message;
    EffectUpToRevoked(a.(nonces := a.nonces[m.nonce := m.digest]), b.(nonces := b.nonces[m.nonce := m.digest]),
                      id, step.host, step.principal, m);
  }

  lemma RestartUpToRevoked(a: Host, b: Host, step: Step, id: string, empty: string)
    requires step.Restart? && UpToRevoked(a, b, id)
    ensures UpToRevoked(Next(a, step, empty), Next(b, step, empty), id)
  {
    assert forall k :: k in a.grants <==> k in b.grants;
    assert forall k :: k in a.grants ==> a.grants[k].state == b.grants[k].state;
    assert Enumerates(a, step.order) == Enumerates(b, step.order);
    assert Unsettled(b) == Unsettled(a)[id := a.grants[id].(revoked := true)];
  }

  lemma CliUpToRevoked(a: Host, b: Host, step: Step, id: string, empty: string)
    requires (step.CliGrant? || step.CliRevoke?) && UpToRevoked(a, b, id)
    ensures UpToRevoked(Next(a, step, empty), Next(b, step, empty), id)
  {
  }

  lemma ReserveUpToRevoked(a: Host, b: Host, step: Step, id: string, empty: string)
    requires step.Reserve? && UpToRevoked(a, b, id) && !Reserves(a, step, id, empty)
    ensures UpToRevoked(Next(a, step, empty), Next(b, step, empty), id)
  {
    assert step.id != id ==>
      Refusal(a, step.id, step.host, step.principal, step.now)
      == Refusal(b, step.id, step.host, step.principal, step.now);
  }

  lemma FinishUpToRevoked(a: Host, b: Host, step: Step, id: string, empty: string)
    requires step.Finish? && UpToRevoked(a, b, id)
    ensures UpToRevoked(Next(a, step, empty), Next(b, step, empty), id)
  {
    assert Holds(a, step.claim) == Holds(b, step.claim);
  }

  lemma StepUpToRevoked(a: Host, b: Host, step: Step, id: string, spent: set<string>, empty: string)
    requires Twins(a, b, id, spent) && Unspent(step, spent) && UpToRevoked(a, b, id) && !Reserves(a, step, id, empty)
    ensures UpToRevoked(Next(a, step, empty), Next(b, step, empty), id)
  {
    match step
    case Control(_, _, _, _, _) => ControlUpToRevoked(a, b, step, id, spent, empty);
    case Restart(_) => RestartUpToRevoked(a, b, step, id, empty);
    case CliGrant(_, _, _, _, _, _, _) => CliUpToRevoked(a, b, step, id, empty);
    case CliRevoke(_) => CliUpToRevoked(a, b, step, id, empty);
    case Reserve(_, _, _, _, _, _) => ReserveUpToRevoked(a, b, step, id, empty);
    case Finish(_, _, _, _) => FinishUpToRevoked(a, b, step, id, empty);
  }

  lemma StepTwins(a: Host, b: Host, step: Step, id: string, spent: set<string>, empty: string)
    requires Twins(a, b, id, spent) && Unspent(step, spent)
    ensures Twins(Next(a, step, empty), Next(b, step, empty), id, spent)
  {
    match step
    case Control(_, _, _, _, _) => ControlTwins(a, b, step, id, spent, empty);
    case Restart(_) =>
    case CliGrant(_, _, _, _, _, _, _) =>
    case CliRevoke(_) =>
    case Reserve(_, _, _, _, _, _) =>
    case Finish(_, _, _, _) =>
  }

  ghost predicate Untouched(s: Host, steps: seq<Step>, id: string, empty: string) {
    forall i :: 0 <= i < |steps| ==> !Reserves(Run(s, steps[..i], empty), steps[i], id, empty)
  }

  lemma {:induction false} RunTwins(a: Host, b: Host, steps: seq<Step>, id: string, spent: set<string>, empty: string)
    requires Twins(a, b, id, spent) && forall i :: 0 <= i < |steps| ==> Unspent(steps[i], spent)
    ensures Twins(Run(a, steps, empty), Run(b, steps, empty), id, spent)
    ensures UpToRevoked(a, b, id) && Untouched(a, steps, id, empty)
        ==> UpToRevoked(Run(a, steps, empty), Run(b, steps, empty), id)
    decreases |steps|
  {
    if steps != [] {
      var n := |steps| - 1;
      RunTwins(a, b, steps[..n], id, spent, empty);
      StepTwins(Run(a, steps[..n], empty), Run(b, steps[..n], empty), steps[n], id, spent, empty);
      if UpToRevoked(a, b, id) && Untouched(a, steps, id, empty) {
        forall i | 0 <= i < n
          ensures !Reserves(Run(a, steps[..n][..i], empty), steps[..n][i], id, empty)
        {
          assert steps[..n][..i] == steps[..i];
        }
        StepUpToRevoked(Run(a, steps[..n], empty), Run(b, steps[..n], empty), steps[n], id, spent, empty);
      }
    }
  }

  lemma RevokedUnusedNext(s: Host, step: Step, id: string, empty: string)
    requires id in s.grants && s.grants[id].revoked && s.grants[id].state == Granted
    ensures var t := Next(s, step, empty); id in t.grants && t.grants[id].revoked && t.grants[id].state == Granted
  {
    match step
    case Control(_, _, _, _, _) =>
    case Restart(_) =>
    case CliGrant(_, _, _, _, _, _, _) =>
    case CliRevoke(_) =>
    case Reserve(_, _, _, _, _, _) =>
    case Finish(_, _, _, _) =>
  }

  lemma {:induction false} RevokedStaysUnused(s: Host, steps: seq<Step>, id: string, empty: string)
    requires id in s.grants && s.grants[id].revoked && s.grants[id].state == Granted
    ensures id in Run(s, steps, empty).grants && Run(s, steps, empty).grants[id].revoked
    ensures Run(s, steps, empty).grants[id].state == Granted
    decreases |steps|
  {
    if steps != [] {
      var n := |steps| - 1;
      RevokedStaysUnused(s, steps[..n], id, empty);
      RevokedUnusedNext(Run(s, steps[..n], empty), steps[n], id, empty);
    }
  }

  lemma ReservedShows(s: Host, steps: seq<Step>, id: string, empty: string)
    requires id in s.grants && !Untouched(s, steps, id, empty)
    ensures id in Run(s, steps, empty).grants && Run(s, steps, empty).grants[id].state != Granted
  {
    var i :| 0 <= i < |steps| && Reserves(Run(s, steps[..i], empty), steps[i], id, empty);
    After(s, steps, i, empty);
    assert steps[..|steps|] == steps;
    BetweenLater(s, steps, i + 1, |steps|, empty);
  }

  lemma NonceOut(s: Host, step: Step, nonce: string, spent: set<string>, empty: string)
    requires nonce in spent && nonce !in s.nonces && Unspent(step, spent)
    ensures nonce !in Next(s, step, empty).nonces
  {
  }

  lemma {:induction false} NonceStaysOut(s: Host, steps: seq<Step>, nonce: string, spent: set<string>, empty: string)
    requires nonce in spent && nonce !in s.nonces
    requires forall i :: 0 <= i < |steps| ==> Unspent(steps[i], spent)
    ensures nonce !in Run(s, steps, empty).nonces
    decreases |steps|
  {
    if steps != [] {
      var n := |steps| - 1;
      NonceStaysOut(s, steps[..n], nonce, spent, empty);
      NonceOut(Run(s, steps[..n], empty), steps[n], nonce, spent, empty);
    }
  }

  lemma FirstDeliveries(s: Host, grant: Step, tombstone: Step, empty: string)
    requires grant.Control? && tombstone.Control? && Pair(grant.message, tombstone.message)
    requires grant.host == tombstone.host && grant.principal == tombstone.principal
    requires Timely(grant) && Timely(tombstone)
    requires var g, r := grant.message, tombstone.message;
      g.id !in s.grants && g.id !in s.authority && g.nonce !in s.nonces && r.nonce !in s.nonces
    ensures var a, b, r := Next(s, grant, empty), Next(s, tombstone, empty), tombstone.message;
      && Twins(a, b, r.id, {grant.message.nonce, r.nonce}) && UpToRevoked(a, b, r.id)
      && a.authority[r.id] == Authority(r.manifest, r.expiresAt)
      && r.nonce !in a.nonces && b.grants[r.id].state == Granted
  {
  }

  lemma RevokeDelivered(a: Host, revoke: Step, empty: string)
    requires revoke.Control? && Timely(revoke) && revoke.message.verb == Revokes
    requires var r := revoke.message;
      && r.nonce !in a.nonces && r.id in a.authority && a.authority[r.id] == Authority(r.manifest, r.expiresAt)
      && r.id in a.grants
    ensures var id := revoke.message.id;
      && Next(a, revoke, empty).grants == a.grants[id := a.grants[id].(revoked := true)]
      && Next(a, revoke, empty).authority == a.authority
  {
  }

  lemma GrantOvertaken(b: Host, overtaken: Step, empty: string)
    requires overtaken.Control? && overtaken.message.verb == Grants && overtaken.message.id in b.grants
    ensures Next(b, overtaken, empty) == b
  {
  }

  lemma Sandwich(s: Host, first: Step, between: seq<Step>, last: Step, empty: string)
    ensures Run(s, [first] + between + [last], empty) == Next(Run(Next(s, first, empty), between, empty), last, empty)
  {
    RunAppend(s, [first] + between, [last], empty);
    RunAppend(s, [first], between, empty);
    assert [first][..0] == [] && [last][..0] == [];
  }

  /**
   * A grant and its revocation commute, whatever runs between them: either order leaves the same authority
   * and a revoked grant, because the overtaken grant collides with the tombstone and is rolled back. The
   * whole grant tables agree exactly when the grant was not reserved while it lasted.
   */
  lemma GrantRevokeConfluent(s: Host, host: string, principal: string, g: Message, r: Message, between: seq<Step>,
                             grant: Step, revoke: Step, tombstone: Step, overtaken: Step, empty: string)
    requires Pair(g, r) && g.id !in s.grants && g.id !in s.authority && g.nonce !in s.nonces && r.nonce !in s.nonces
    requires Delivers(grant, host, principal, g) && Delivers(overtaken, host, principal, g)
    requires Delivers(revoke, host, principal, r) && Delivers(tombstone, host, principal, r)
    requires Timely(grant) && Timely(revoke) && Timely(tombstone)
    requires forall i :: 0 <= i < |between| ==> Unspent(between[i], {g.nonce, r.nonce})
    ensures var left := Run(s, [grant] + between + [revoke], empty);
      var right := Run(s, [tombstone] + between + [overtaken], empty);
      && left.authority == right.authority && left.grants.Keys == right.grants.Keys
      && g.id in left.grants && left.grants[g.id].revoked && right.grants[g.id].revoked
      && (left.grants == right.grants <==> Untouched(Next(s, grant, empty), between, g.id, empty))
  {
    var spent := {g.nonce, r.nonce};
    FirstDeliveries(s, grant, tombstone, empty);
    var a, b := Next(s, grant, empty), Next(s, tombstone, empty);
    RunTwins(a, b, between, g.id, spent, empty);
    NonceStaysOut(a, between, r.nonce, spent, empty);
    RevokedStaysUnused(b, between, g.id, empty);
    RunLater(a, between, empty);
    if !Untouched(a, between, g.id, empty) { ReservedShows(a, between, g.id, empty); }
    RevokeDelivered(Run(a, between, empty), revoke, empty);
    GrantOvertaken(Run(b, between, empty), overtaken, empty);
    Sandwich(s, grant, between, revoke, empty);
    Sandwich(s, tombstone, between, overtaken, empty);
  }

  // ------------------------------------------------------------------ how long authority lasts

  /** The last clock read while a grant was checked for admission. */
  function CheckedAt(step: Step): real
    requires step.CliGrant? || step.Control?
  {
    if step.CliGrant? then step.t1 else step.verified
  }

  ghost predicate Admits(s: Host, step: Step, id: string, empty: string) {
    (step.CliGrant? || step.Control?) && id !in s.grants && id in Next(s, step, empty).grants
  }

  lemma AdmissionWindow(s: Host, step: Step, id: string, empty: string)
    requires id !in s.grants && id in Next(s, step, empty).grants
    ensures Admits(s, step, id, empty)
    ensures Next(s, step, empty).grants[id].expiresAt as real <= CheckedAt(step) + 305.0
  {
  }

  lemma {:induction false} AdmittedFrom(steps: seq<Step>, id: string, empty: string) returns (i: nat)
    requires id in Run(EMPTY, steps, empty).grants
    ensures i < |steps| && Admits(Run(EMPTY, steps[..i], empty), steps[i], id, empty)
    ensures Run(EMPTY, steps, empty).grants[id].expiresAt as real <= CheckedAt(steps[i]) + 305.0
    decreases |steps|
  {
    assert steps != [];
    var n := |steps| - 1;
    var t := Run(EMPTY, steps[..n], empty);
    if id in t.grants {
      i := AdmittedFrom(steps[..n], id, empty);
      assert steps[..n][..i] == steps[..i];
      NextLater(t, steps[n], empty);
    } else {
      i := n;
      AdmissionWindow(t, steps[n], id, empty);
    }
  }

  /**
   * Over every run, a grant is reserved, and a result released under it, only within 305 seconds of the
   * clock that checked the one step that admitted it.
   */
  lemma AuthorityBrief(steps: seq<Step>, j: nat, id: string, empty: string) returns (i: nat)
    requires j < |steps|
    requires var t := Run(EMPTY, steps[..j], empty); Reserves(t, steps[j], id, empty) || Releases(t, steps[j], id)
    ensures i < j && Admits(Run(EMPTY, steps[..i], empty), steps[i], id, empty)
    ensures steps[j].now < CheckedAt(steps[i]) + 305.0
  {
    i := AdmittedFrom(steps[..j], id, empty);
    assert steps[..j][..i] == steps[..i];
  }
}
