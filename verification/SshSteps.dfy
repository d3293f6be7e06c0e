/** What every step of the SSH host does to its rows, and a grant's life told from the steps of a run. */
module SshSteps {
  import opened Wrappers
  import opened Alphabets
  import opened SshLedger
  import opened SshTheorems

  // ------------------------------------------------------------------ names

  /** Lower-case hexadecimal in groups of 8, 4, 4, 4 and 12, and not all zero. */
  ghost predicate CanonicalUuid(id: string) {
    && |id| == 36 && id[8] == id[13] == id[18] == id[23] == '-'
    && (forall i :: 0 <= i < 36 && i != 8 && i != 13 && i != 18 && i != 23 ==> id[i] in HEX)
    && (exists i :: 0 <= i < 36 && id[i] !in "-0")
  }

  /** The pattern `[A-Za-z0-9][A-Za-z0-9_.-]{0,63}`. */
  ghost predicate PolicyName(name: string) {
    && 0 < |name| < 65 && LetterOrDigit(name[0])
    && forall i :: 0 <= i < |name| ==> LetterOrDigit(name[i]) || name[i] in "_.-"
  }

  lemma UuidExact(id: string)
    ensures IsGrantId(id) <==> CanonicalUuid(id)
  {
    forall ch ensures LowerHex(ch) <==> ch in HEX { HexExact(ch); }
  }

  lemma NameExact(name: string)
    ensures IsPolicyName(name) <==> PolicyName(name)
  {
    forall ch ensures Alphanumeric(ch) <==> LetterOrDigit(ch) { LetterOrDigitExact(ch); }
  }

  // ------------------------------------------------------------------ grants and revocations

  ghost predicate MayIssue(s: Host, step: Step)
    requires step.CliGrant?
  {
    && CanonicalUuid(step.id) && PolicyName(step.host) && PolicyName(step.principal)
    && step.t0 < step.expiresAt as real <= step.t1 + 300.0 && 0 < step.maxSeconds < 31
    && step.id !in s.grants
  }

  /** The row a step inserts when it admits a grant, or the tombstone of one. */
  ghost function AdmittedRow(step: Step): Grant
    requires step.CliGrant? || step.Control?
  {
    if step.CliGrant? then
      Grant(step.host, step.principal, step.expiresAt, step.maxSeconds, false, Granted, None, None)
    else
      var m := step.message;
      Grant(step.host, step.principal, m.expiresAt, m.maxSeconds, m.verb == Revokes, Granted, None, None)
  }

  /** A command-line grant is inserted exactly when it is well formed, brief and new. */
  lemma GrantStep(s: Host, step: Step, empty: string)
    requires step.CliGrant?
    ensures Next(s, step, empty) ==
      if MayIssue(s, step) then s.(grants := s.grants[step.id := AdmittedRow(step)]) else s
  {
    UuidExact(step.id);
    NameExact(step.host);
    NameExact(step.principal);
  }

  /** A command-line revocation marks its grant and nothing else; an unknown id changes nothing. */
  lemma RevokeStep(s: Host, id: string, empty: string)
    requires CanonicalUuid(id)
    ensures var t := Next(s, CliRevoke(id), empty);
      && t.receipts == s.receipts && t.authority == s.authority && t.nonces == s.nonces
      && t.grants.Keys == s.grants.Keys
      && (id in s.grants ==> t.grants[id].revoked && t.grants[id].(revoked := false) == s.grants[id].(revoked := false))
      && (forall x :: x in s.grants && x != id ==> t.grants[x] == s.grants[x])
  {
    UuidExact(id);
  }

  /** From the step on: a grant revoked on the command line is never reserved and never releases a result. */
  lemma CliRevocationFinal(s: Host, steps: seq<Step>, i: nat, j: nat, empty: string)
    requires i < j < |steps| && steps[i].CliRevoke? && CanonicalUuid(steps[i].id)
    requires steps[i].id in Run(s, steps[..i], empty).grants
    ensures var t := Run(s, steps[..j], empty);
      !Reserves(t, steps[j], steps[i].id, empty) && !Releases(t, steps[j], steps[i].id)
  {
    After(s, steps, i, empty);
    RevokeStep(Run(s, steps[..i], empty), steps[i].id, empty);
    RevokedForGood(s, steps, i + 1, j, steps[i].id, empty);
  }

  // ------------------------------------------------------------------ reservations

  /** A grant that a reservation for this destination may use at this moment. */
  ghost predicate Usable(s: Host, id: string, host: string, principal: string, now: real) {
    && id in s.grants && s.grants[id].host == host && s.grants[id].principal == principal
    && !s.grants[id].revoked && now < s.grants[id].expiresAt as real && s.grants[id].state == Granted
  }

  /** Why a reservation is denied; every earlier reason is absent. */
  ghost predicate Denies(s: Host, id: string, host: string, principal: string, now: real, code: Code) {
    match code
    case UnknownGrant => id !in s.grants
    case DestinationMismatch => id in s.grants && (s.grants[id].host, s.grants[id].principal) != (host, principal)
    case RevokedCode =>
      id in s.grants && (s.grants[id].host, s.grants[id].principal) == (host, principal) && s.grants[id].revoked
    case ExpiredCode =>
      && id in s.grants && (s.grants[id].host, s.grants[id].principal) == (host, principal) && !s.grants[id].revoked
      && now >= s.grants[id].expiresAt as real
    case AlreadyUsed =>
      && id in s.grants && (s.grants[id].host, s.grants[id].principal) == (host, principal) && !s.grants[id].revoked
      && now < s.grants[id].expiresAt as real && s.grants[id].state != Granted
    case _ => false
  }

  /**
   * A reservation succeeds exactly on a usable grant, which it marks with its own reservation and claim;
   * otherwise it leaves the grants alone and writes one denial with the first applicable reason.
   */
  lemma ReserveStep(s: Host, step: Step, empty: string)
    requires step.Reserve?
    ensures var t := Next(s, step, empty);
      var claim := ReserveTx(s, step.id, step.host, step.principal, step.now, step.reservation, step.started, empty).1;
      && (claim.Some? <==> Usable(s, step.id, step.host, step.principal, step.now))
      && (claim.Some? ==>
            && claim.value == Claim(step.id, step.host, step.principal, s.grants[step.id].expiresAt, step.reservation,
                                    step.started)
            && t == s.(grants := s.grants[step.id := s.grants[step.id].(
                         state := Reserved, reservation := Some(step.reservation), startedAt := Some(step.started))]))
      && (claim.None? ==>
            exists code :: Denies(s, step.id, step.host, step.principal, step.now, code)
              && t == s.(receipts := s.receipts + [Receipt(step.id, step.host, step.principal, Denied, code,
                                                           Some(step.started), empty, 0, true)]))
  {
    var refusal := Refusal(s, step.id, step.host, step.principal, step.now);
    if refusal.Some? { assert Denies(s, step.id, step.host, step.principal, step.now, refusal.value); }
  }

  // ------------------------------------------------------------------ endings

  ghost predicate HeldBy(s: Host, claim: Claim) {
    && claim.id in s.grants && s.grants[claim.id].state == Reserved
    && s.grants[claim.id].reservation.Some? && s.grants[claim.id].reservation.value == claim.reservation
  }

  /** How the probe ended, read back from the receipt of a grant that was still good. */
  ghost predicate Tells(status: Status, code: Code, f: Finding) {
    match code
    case OkCode => status == Finished && f.Healthy?
    case DurationExceeded => status == Timeout && f.TimedOut?
    case SpawnFailed => status == Failed && f.NoSpawn?
    case OutputLimit => status == Failed && f.TooMuchOutput?
    case ProbeFailed => status == Failed && f.BadExit?
    case InvalidProbeJson => status == Failed && f.BadJson?
    case GuardError => status == Failed && f.Broken?
    case CancelledUnknown => status == NotKnown && f == Cancelled(ByLoss)
    case RevokedCode => status == WasRevoked && f == Cancelled(ByRevocation)
    case ExpiredCode => status == WasExpired && f == Cancelled(ByExpiry)
    case _ => false
  }

  /** What the receipt of an ending says, from the stored grant first and the probe's finding last. */
  ghost predicate Says(s: Host, step: Step, status: Status, code: Code)
    requires step.Finish?
  {
    if !HeldBy(s, step.claim) then status == NotKnown && code == ReservationLost
    else if s.grants[step.claim.id].revoked then status == WasRevoked && code == RevokedCode
    else if s.grants[step.claim.id].expiresAt as real <= step.now then status == WasExpired && code == ExpiredCode
    else Tells(status, code, step.finding)
  }

  /**
   * An ending releases a result exactly for a healthy probe on a grant it still holds, unrevoked and
   * unexpired; it completes exactly the grant it holds and always writes one receipt, which says why.
   */
  lemma FinishStep(s: Host, step: Step, empty: string)
    requires step.Finish?
    ensures var t := Next(s, step, empty);
      var c, o := step.claim, step.output;
      var released := FinishTx(s, c, step.finding, o, step.now).1;
      && (released.Some? <==>
            && HeldBy(s, c) && !s.grants[c.id].revoked && step.now < s.grants[c.id].expiresAt as real
            && step.finding.Healthy?)
      && (released.Some? ==> step.finding == Healthy(released.value))
      && t.authority == s.authority && t.nonces == s.nonces
      && t.grants == (if HeldBy(s, c) then s.grants[c.id := s.grants[c.id].(state := Completed)] else s.grants)
      && exists status, code :: Says(s, step, status, code)
           && t.receipts == s.receipts + [Receipt(c.id, c.host, c.principal, status, code, Some(c.startedAt), o.digest,
                                                  o.size, o.complete)]
  {
    var t := Next(s, step, empty);
    var r := t.receipts[|s.receipts|];
    assert Holds(s, step.claim) <==> HeldBy(s, step.claim);
    assert Says(s, step, r.status, r.code);
  }

  /** Polling reports loss, then revocation, then expiry of the claim. */
  lemma CancellationExact(s: Host, claim: Claim, now: real)
    ensures var c := CancellationOf(s, claim, now);
      && (c == Some(ByLoss) <==> !HeldBy(s, claim))
      && (c == Some(ByRevocation) <==> HeldBy(s, claim) && s.grants[claim.id].revoked)
      && (c == Some(ByExpiry) <==>
            HeldBy(s, claim) && !s.grants[claim.id].revoked && claim.expiresAt as real <= now)
  {
  }

  lemma {:induction false} RestartEach(s: Host, ids: seq<string>, empty: string, k: nat)
    requires (forall id :: id in ids ==> id in s.grants) && k < |ids|
    ensures |RestartReceipts(s, ids, empty)| == |ids|
    ensures var row := s.grants[ids[k]];
      RestartReceipts(s, ids, empty)[k] ==
        Receipt(ids[k], row.host, row.principal, NotKnown, RestartUnknown, row.startedAt, empty, 0, false)
    decreases |ids|
  {
    var n := |ids| - 1;
    if n > 0 { RestartEach(s, ids[..n], empty, if k < n then k else n - 1); }
  }

  /** A restart turns exactly the reserved grants unknown, with one receipt for each. */
  lemma RestartStep(s: Host, step: Step, empty: string)
    requires step.Restart? && Enumerates(s, step.order)
    ensures var t := Next(s, step, empty);
      && t.authority == s.authority && t.nonces == s.nonces && t.grants.Keys == s.grants.Keys
      && (forall id :: id in s.grants ==>
            t.grants[id] == if s.grants[id].state == Reserved then s.grants[id].(state := Unknown) else s.grants[id])
      && |t.receipts| == |s.receipts| + |step.order| && t.receipts[..|s.receipts|] == s.receipts
      && forall k :: 0 <= k < |step.order| ==>
           var row := s.grants[step.order[k]];
           t.receipts[|s.receipts| + k] ==
             Receipt(step.order[k], row.host, row.principal, NotKnown, RestartUnknown, row.startedAt, empty, 0, false)
  {
    if step.order == [] {
    } else {
      forall k | 0 <= k < |step.order|
        ensures |RestartReceipts(s, step.order, empty)| == |step.order|
        ensures var row := s.grants[step.order[k]];
          RestartReceipts(s, step.order, empty)[k] ==
            Receipt(step.order[k], row.host, row.principal, NotKnown, RestartUnknown, row.startedAt, empty, 0, false)
      {
        RestartEach(s, step.order, empty, k);
      }
      RestartEach(s, step.order, empty, 0);
    }
  }

  // ------------------------------------------------------------------ broker messages

  /** Fresh, brief, and not expired while waiting for the writer lock. */
  ghost predicate Prompt(m: Message, verified: real, locked: real) {
    && verified <= m.issuedAt as real + 30.0 && m.issuedAt as real <= verified + 5.0
    && 0 < m.expiresAt - m.issuedAt <= 300
    && verified < m.expiresAt as real && locked < m.expiresAt as real
  }

  ghost predicate Revives(s: Host, m: Message) {
    m.id in s.authority && s.authority[m.id].manifest == m.manifest && s.authority[m.id].expiresAt == m.expiresAt
  }

  /**
   * A broker message takes effect exactly when it is prompt, its nonce is new, and it either names a new
   * id or revokes a grant of this very manifest and expiry. Otherwise nothing is written, the nonce included.
   */
  lemma ControlStep(s: Host, step: Step, empty: string)
    requires step.Control?
    ensures var t, m := Next(s, step, empty), step.message;
      var unheard := m.id !in s.grants && m.id !in s.authority;
      if !(Prompt(m, step.verified, step.locked) && m.nonce !in s.nonces
           && (unheard || (m.verb == Revokes && Revives(s, m) && m.id in s.grants))) then t == s
      else
        && t.receipts == s.receipts && t.nonces == s.nonces[m.nonce := m.digest]
        && (unheard ==>
              && t.grants == s.grants[m.id := AdmittedRow(step)]
              && t.authority == s.authority[m.id := Authority(m.manifest, m.expiresAt)])
        && (!unheard ==>
              t.grants == s.grants[m.id := s.grants[m.id].(revoked := true)] && t.authority == s.authority)
  {
  }

  // ------------------------------------------------------------------ the life of a grant

  /** A revocation of this grant that takes effect. */
  ghost predicate Kills(s: Host, step: Step, id: string) {
    || (step.CliRevoke? && step.id == id && CanonicalUuid(id))
    || (&& step.Control? && step.message.verb == Revokes && step.message.id == id && step.message.nonce !in s.nonces
        && Prompt(step.message, step.verified, step.locked) && Revives(s, step.message))
  }

  lemma RowNext(s: Host, step: Step, id: string, empty: string)
    requires id in s.grants
    ensures var t := Next(s, step, empty);
      && id in t.grants
      && (t.grants[id].revoked <==> s.grants[id].revoked || Kills(s, step, id))
      && (t.grants[id].state == Granted <==> s.grants[id].state == Granted && !Reserves(s, step, id, empty))
  {
    match step
    case CliGrant(_, _, _, _, _, _, _) => GrantStep(s, step, empty);
    case CliRevoke(x) => UuidExact(x);
    case Reserve(_, _, _, _, _, _) =>
    case Finish(_, _, _, _) => FinishStep(s, step, empty);
    case Restart(_) =>
    case Control(_, _, _, _, _) => ControlStep(s, step, empty);
  }

  lemma AdmitsRow(s: Host, step: Step, id: string, empty: string)
    requires id !in s.grants && id in Next(s, step, empty).grants
    ensures Admits(s, step, id, empty) && Next(s, step, empty).grants[id] == AdmittedRow(step)
  {
    match step
    case CliGrant(_, _, _, _, _, _, _) => GrantStep(s, step, empty);
    case CliRevoke(x) =>
    case Reserve(_, _, _, _, _, _) =>
    case Finish(_, _, _, _) => FinishStep(s, step, empty);
    case Restart(_) =>
    case Control(_, _, _, _, _) => ControlStep(s, step, empty);
  }

  /** Some step after `i` and before `n` killed the grant. */
  ghost predicate KilledBetween(steps: seq<Step>, i: nat, n: nat, id: string, empty: string)
    requires n <= |steps|
    decreases n
  {
    i + 1 < n
    && (KilledBetween(steps, i, n - 1, id, empty) || Kills(Run(EMPTY, steps[..n - 1], empty), steps[n - 1], id))
  }

  /** Some step after `i` and before `n` reserved it. */
  ghost predicate UsedBetween(steps: seq<Step>, i: nat, n: nat, id: string, empty: string)
    requires n <= |steps|
    decreases n
  {
    i + 1 < n
    && (UsedBetween(steps, i, n - 1, id, empty) || Reserves(Run(EMPTY, steps[..n - 1], empty), steps[n - 1], id, empty))
  }

  /** What the first `n` steps made of the grant that step `i` admitted. */
  ghost predicate Lived(steps: seq<Step>, i: nat, n: nat, id: string, empty: string)
    requires i < n <= |steps|
  {
    && Admits(Run(EMPTY, steps[..i], empty), steps[i], id, empty)
    && id in Run(EMPTY, steps[..n], empty).grants
    && var first, row := AdmittedRow(steps[i]), Run(EMPTY, steps[..n], empty).grants[id];
    && row.host == first.host && row.principal == first.principal
    && row.expiresAt == first.expiresAt && row.maxSeconds == first.maxSeconds
    && (row.revoked <==> first.revoked || KilledBetween(steps, i, n, id, empty))
    && (row.state == Granted <==> !UsedBetween(steps, i, n, id, empty))
  }

  lemma RowFixed(s: Host, step: Step, id: string, empty: string)
    requires id in s.grants
    ensures var t := Next(s, step, empty);
      && id in t.grants
      && t.grants[id].host == s.grants[id].host && t.grants[id].principal == s.grants[id].principal
      && t.grants[id].expiresAt == s.grants[id].expiresAt && t.grants[id].maxSeconds == s.grants[id].maxSeconds
  {
    NextLater(s, step, empty);
  }

  lemma LivedOn(steps: seq<Step>, i: nat, n: nat, id: string, empty: string)
    requires i < n < |steps| && Lived(steps, i, n, id, empty)
    ensures Lived(steps, i, n + 1, id, empty)
  {
    After(EMPTY, steps, n, empty);
    RowNext(Run(EMPTY, steps[..n], empty), steps[n], id, empty);
    RowFixed(Run(EMPTY, steps[..n], empty), steps[n], id, empty);
  }

  lemma LivedFirst(steps: seq<Step>, i: nat, id: string, empty: string)
    requires i < |steps| && Admits(Run(EMPTY, steps[..i], empty), steps[i], id, empty)
    ensures Lived(steps, i, i + 1, id, empty)
  {
    After(EMPTY, steps, i, empty);
    AdmitsRow(Run(EMPTY, steps[..i], empty), steps[i], id, empty);
  }

  lemma {:induction false} LivedFrom(steps: seq<Step>, i: nat, n: nat, id: string, empty: string)
    requires i < n <= |steps| && Admits(Run(EMPTY, steps[..i], empty), steps[i], id, empty)
    ensures Lived(steps, i, n, id, empty)
    decreases n
  {
    if n == i + 1 {
      LivedFirst(steps, i, id, empty);
    } else {
      LivedFrom(steps, i, n - 1, id, empty);
      LivedOn(steps, i, n - 1, id, empty);
    }
  }

  /**
   * A reservation at the end of any run succeeds if and only if some step admitted the grant for this
   * very destination, no step since revoked or reserved it, and it has not expired.
   */
  lemma ReservedWhen(steps: seq<Step>, step: Step, empty: string)
    requires step.Reserve?
    ensures Reserves(Run(EMPTY, steps, empty), step, step.id, empty) <==>
      exists i ::
        && 0 <= i < |steps| && Admits(Run(EMPTY, steps[..i], empty), steps[i], step.id, empty)
        && var row := AdmittedRow(steps[i]);
        && row.host == step.host && row.principal == step.principal && step.now < row.expiresAt as real
        && !row.revoked && !KilledBetween(steps, i, |steps|, step.id, empty)
        && !UsedBetween(steps, i, |steps|, step.id, empty)
  {
    var s := Run(EMPTY, steps, empty);
    assert steps[..|steps|] == steps;
    ReserveStep(s, step, empty);
    forall i | 0 <= i < |steps| && Admits(Run(EMPTY, steps[..i], empty), steps[i], step.id, empty)
      ensures Lived(steps, i, |steps|, step.id, empty)
    {
      LivedFrom(steps, i, |steps|, step.id, empty);
    }
    if step.id in s.grants {
      var i := AdmittedFrom(steps, step.id, empty);
    }
  }
}
