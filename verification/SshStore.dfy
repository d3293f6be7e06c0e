/** The host ledger as a store whose tables are written in place, one transaction per method. */
module SshStore {
  import opened Wrappers
  import opened SshLedger

  class HostLedger {
    const emptyDigest: string
    var grants: map<string, Grant>
    var receipts: seq<Receipt>
    var authority: map<string, Authority>
    var nonces: map<string, string>

    constructor (digestOfNothing: string)
      ensures State() == EMPTY && emptyDigest == digestOfNothing
    {
      emptyDigest, grants, receipts, authority, nonces := digestOfNothing, map[], [], map[], map[];
    }

    ghost function State(): Host
      reads this
    {
      Host(grants, receipts, authority, nonces)
    }

    /** `false` is an exception; the insert of an id already present is one. */
    method Issue(id: string, host: string, principal: string, expiresAt: int, maxSeconds: int, t0: real,
                 t1: real) returns (ok: bool)
      modifies this`grants
      ensures ok <==> GrantTx(old(State()), id, host, principal, expiresAt, maxSeconds, t0, t1).Some?
      ensures State() == OrElse(GrantTx(old(State()), id, host, principal, expiresAt, maxSeconds, t0, t1), old(State()))
    {
      if !IsGrantId(id) || !IsPolicyName(host) || !IsPolicyName(principal) { return false; }
      if !(t0 < expiresAt as real && expiresAt as real <= t1 + 300.0) { return false; }
      if !(1 <= maxSeconds <= 30) { return false; }
      if id in grants { return false; }
      grants := grants[id := NewGrant(host, principal, expiresAt, maxSeconds, false)];
      return true;
    }

    method Revoke(id: string) returns (ok: bool)
      modifies this`grants
      ensures ok <==> RevokeTx(old(State()), id).Some?
      ensures State() == OrElse(RevokeTx(old(State()), id), old(State()))
    {
      if !IsGrantId(id) || id !in grants { return false; }
      grants := grants[id := grants[id].(revoked := true)];
      return true;
    }

    method Reserve(id: string, host: string, principal: string, now: real, reservation: string,
                   started: real) returns (claim: Option<Claim>)
      modifies this`grants, this`receipts
      ensures (State(), claim) == ReserveTx(old(State()), id, host, principal, now, reservation, started, emptyDigest)
    {
      var code := None;
      if id !in grants { code := Some(UnknownGrant); }
      else if grants[id].host != host || grants[id].principal != principal { code := Some(DestinationMismatch); }
      else if grants[id].revoked { code := Some(RevokedCode); }
      else if grants[id].expiresAt as real <= now { code := Some(ExpiredCode); }
      else if grants[id].state != Granted { code := Some(AlreadyUsed); }
      if code.Some? {
        receipts := receipts + [Receipt(id, host, principal, Denied, code.value, Some(started), emptyDigest, 0, true)];
        return None;
      }
      var row := grants[id];
      grants := grants[id := row.(state := Reserved, reservation := Some(reservation), startedAt := Some(started))];
      return Some(Claim(id, host, principal, row.expiresAt, reservation, started));
    }

    method Finish(claim: Claim, finding: Finding, output: Output, now: real) returns (released: Option<string>)
      modifies this`grants, this`receipts
      ensures (State(), released) == FinishTx(old(State()), claim, finding, output, now)
    {
      var status, code := StatusOf(finding), CodeOf(finding);
      released := if finding.Healthy? then Some(finding.result) else None;
      if claim.id !in grants || grants[claim.id].state != Reserved
        || grants[claim.id].reservation != Some(claim.reservation) {
        status, code, released := NotKnown, ReservationLost, None;
      } else {
        if grants[claim.id].revoked {
          status, code, released := WasRevoked, RevokedCode, None;
        } else if now >= grants[claim.id].expiresAt as real {
          status, code, released := WasExpired, ExpiredCode, None;
        }
        grants := grants[claim.id := grants[claim.id].(state := Completed)];
      }
      receipts := receipts +
        [Receipt(claim.id, claim.host, claim.principal, status, code, Some(claim.startedAt), output.digest, output.size,
                 output.complete)];
      if status != Finished { released := None; }
    }

    /** Startup recovery: a receipt for each reserved row, then one update of all of them. */
    method Recover() returns (ghost order: seq<string>)
      modifies this`grants, this`receipts
      ensures Enumerates(old(State()), order)
      ensures State() == RecoverTx(old(State()), order, emptyDigest)
    {
      ghost var before := State();
      var rows := set id | id in grants && grants[id].state == Reserved;
      order := [];
      while rows != {}
        invariant grants == before.grants && authority == before.authority && nonces == before.nonces
        invariant forall id :: id in before.grants && before.grants[id].state == Reserved <==> id in rows || id in order
        invariant forall id :: id in rows ==> id !in order
        invariant forall i, j :: 0 <= i < j < |order| ==> order[i] != order[j]
        invariant forall id :: id in order ==> id in before.grants
        invariant receipts == before.receipts + RestartReceipts(before, order, emptyDigest)
        decreases |rows|
      {
        var id :| id in rows;
        assert (order + [id])[..|order|] == order;
        receipts := receipts
          + [Receipt(id, grants[id].host, grants[id].principal, NotKnown, RestartUnknown, grants[id].startedAt,
                     emptyDigest, 0, false)];
        order := order + [id];
        rows := rows - {id};
      }
      grants := map id | id in grants ::
        if grants[id].state == Reserved then grants[id].(state := Unknown) else grants[id];
    }

    method InsertAuthority(host: string, principal: string, m: Message, revoked: bool) returns (ok: bool)
      modifies this`grants, this`authority
      ensures ok <==> m.id !in old(grants) && m.id !in old(authority)
      ensures ok ==> State() == Admitted(old(State()), host, principal, m, revoked)
    {
      if m.id in grants { return false; }
      grants := grants[m.id := NewGrant(host, principal, m.expiresAt, m.maxSeconds, revoked)];
      if m.id in authority { return false; }
      authority := authority[m.id := Authority(m.manifest, m.expiresAt)];
      return true;
    }

    method ControlBody(host: string, principal: string, m: Message) returns (ok: bool)
      modifies this`grants, this`authority
      ensures ok <==> ControlEffect(old(State()), host, principal, m).Some?
      ensures ok ==> State() == ControlEffect(old(State()), host, principal, m).value
    {
      if m.verb == Grants {
        ok := InsertAuthority(host, principal, m, false);
      } else if m.id !in authority {
        ok := InsertAuthority(host, principal, m, true);
      } else {
        if authority[m.id].manifest != m.manifest || authority[m.id].expiresAt != m.expiresAt { return false; }
        if m.id !in grants { return false; }
        grants := grants[m.id := grants[m.id].(revoked := true)];
        ok := true;
      }
    }

    /** One signed message in one transaction: it takes effect with its nonce, or not at all. */
    method Apply(host: string, principal: string, m: Message, verified: real, locked: real) returns (ok: bool)
      modifies this
      ensures ok <==> ControlTx(old(State()), host, principal, m, verified, locked).Some?
      ensures State() == OrElse(ControlTx(old(State()), host, principal, m, verified, locked), old(State()))
    {
      if !InWindow(m, verified) { return false; }
      var savedGrants, savedAuthority, savedNonces := grants, authority, nonces;
      if m.expiresAt as real <= locked { return false; }
      if m.nonce in nonces { return false; }
      nonces := nonces[m.nonce := m.digest];
      ok := ControlBody(host, principal, m);
      if !ok { grants, authority, nonces := savedGrants, savedAuthority, savedNonces; }
    }
  }
}
