/** The SSH host's reservation ledger and the broker control plane that writes to it. */
module SshLedger {
  import opened Wrappers

  // ------------------------------------------------------------------ names

  predicate LowerHex(ch: char) {
    '0' <= ch <= '9' || 'a' <= ch <= 'f'
  }

  /** A canonical, non-nil UUID in its 8-4-4-4-12 form. */
  predicate IsGrantId(id: string) {
    && |id| == 36
    && (forall i :: 0 <= i < 36 ==> if i in {8, 13, 18, 23} then id[i] == '-' else LowerHex(id[i]))
    && (exists i :: 0 <= i < 36 && id[i] != '-' && id[i] != '0')
  }

  predicate Alphanumeric(ch: char) {
    'A' <= ch <= 'Z' || 'a' <= ch <= 'z' || '0' <= ch <= '9'
  }

  predicate IsPolicyName(name: string) {
    && 1 <= |name| <= 64 && Alphanumeric(name[0])
    && forall i :: 0 < i < |name| ==> Alphanumeric(name[i]) || name[i] in "_.-"
  }

  // ------------------------------------------------------------------ tables

  datatype GrantState = Granted | Reserved | Completed | Unknown

  datatype Grant = Grant(
    host: string, principal: string, expiresAt: int, maxSeconds: int, revoked: bool,
    state: GrantState, reservation: Option<string>, startedAt: Option<real>)

  datatype Status = Denied | Failed | Timeout | WasRevoked | WasExpired | NotKnown | Finished

  datatype Code =
    | UnknownGrant | DestinationMismatch | RevokedCode | ExpiredCode | AlreadyUsed
    | RestartUnknown | ReservationLost | CancelledUnknown
    | SpawnFailed | DurationExceeded | OutputLimit | ProbeFailed | InvalidProbeJson | GuardError | OkCode

  datatype Receipt = Receipt(
    grantId: string, host: string, principal: string, status: Status, code: Code,
    startedAt: Option<real>, outputDigest: string, outputBytes: nat, complete: bool)

  datatype Authority = Authority(manifest: string, expiresAt: int)

  /** Tables `grants`, `receipts`, `broker_authority` and `broker_nonces`. */
  datatype Host = Host(
    grants: map<string, Grant>, receipts: seq<Receipt>,
    authority: map<string, Authority>, nonces: map<string, string>)

  const EMPTY := Host(map[], [], map[], map[])

  // ------------------------------------------------------------------ the command line

  function NewGrant(host: string, principal: string, expiresAt: int, maxSeconds: int, revoked: bool): Grant {
    Grant(host, principal, expiresAt, maxSeconds, revoked, Granted, None, None)
  }

  /** `None` is an exception: nothing is written. The clock is read twice. */
  function GrantTx(s: Host, id: string, host: string, principal: string, expiresAt: int, maxSeconds: int, t0: real,
                   t1: real): Option<Host> {
    if !IsGrantId(id) || !IsPolicyName(host) || !IsPolicyName(principal) then None
    else if !(t0 < expiresAt as real && expiresAt as real <= t1 + 300.0) then None
    else if !(1 <= maxSeconds <= 30) then None
    else if id in s.grants then None
    else Some(s.(grants := s.grants[id := NewGrant(host, principal, expiresAt, maxSeconds, false)]))
  }

  function RevokeTx(s: Host, id: string): Option<Host> {
    if !IsGrantId(id) || id !in s.grants then None
    else Some(s.(grants := s.grants[id := s.grants[id].(revoked := true)]))
  }

  // ------------------------------------------------------------------ reserve, finish, recover

  /** What the server keeps of a reservation while the probe runs. */
  datatype Claim = Claim(id: string, host: string, principal: string, expiresAt: int, reservation: string,
                         startedAt: real)

  function Refusal(s: Host, id: string, host: string, principal: string, now: real): Option<Code> {
    if id !in s.grants then Some(UnknownGrant)
    else
      var row := s.grants[id];
      if row.host != host || row.principal != principal then Some(DestinationMismatch)
      else if row.revoked then Some(RevokedCode)
      else if row.expiresAt as real <= now then Some(ExpiredCode)
      else if row.state != Granted then Some(AlreadyUsed)
      else None
  }

  function Noted(s: Host, r: Receipt): Host {
    s.(receipts := s.receipts + [r])
  }

  /** Either a denial receipt, or a claim on a grant that is now reserved. */
  function ReserveTx(s: Host, id: string, host: string, principal: string, now: real, reservation: string,
                     started: real, emptyDigest: string): (Host, Option<Claim>) {
    match Refusal(s, id, host, principal, now)
    case Some(code) => (Noted(s, Receipt(id, host, principal, Denied, code, Some(started), emptyDigest, 0, true)), None)
    case None =>
      var row := s.grants[id];
      var reserved := row.(state := Reserved, reservation := Some(reservation), startedAt := Some(started));
      (s.(grants := s.grants[id := reserved]),
       Some(Claim(id, host, principal, row.expiresAt, reservation, started)))
  }

  datatype Cancellation = ByLoss | ByRevocation | ByExpiry

  function CancellationOf(s: Host, claim: Claim, now: real): Option<Cancellation> {
    if !Holds(s, claim) then Some(ByLoss)
    else if s.grants[claim.id].revoked then Some(ByRevocation)
    else if now >= claim.expiresAt as real then Some(ByExpiry)
    else None
  }

  /** How a probe run can end before the release decision. */
  datatype Finding =
    | NoSpawn | Cancelled(reason: Cancellation) | TimedOut | TooMuchOutput | BadExit | BadJson | Broken
    | Healthy(result: string)

  function StatusOf(f: Finding): Status {
    match f
    case Cancelled(ByLoss) => NotKnown
    case Cancelled(ByRevocation) => WasRevoked
    case Cancelled(ByExpiry) => WasExpired
    case TimedOut => Timeout
    case Healthy(_) => Finished
    case _ => Failed
  }

  function CodeOf(f: Finding): Code {
    match f
    case NoSpawn => SpawnFailed
    case Cancelled(ByLoss) => CancelledUnknown
    case Cancelled(ByRevocation) => RevokedCode
    case Cancelled(ByExpiry) => ExpiredCode
    case TimedOut => DurationExceeded
    case TooMuchOutput => OutputLimit
    case BadExit => ProbeFailed
    case BadJson => InvalidProbeJson
    case Broken => GuardError
    case Healthy(_) => OkCode
  }

  datatype Output = Output(digest: string, size: nat, complete: bool)

  predicate Holds(s: Host, claim: Claim) {
    claim.id in s.grants && s.grants[claim.id].state == Reserved
      && s.grants[claim.id].reservation == Some(claim.reservation)
  }

  /** The release decision: the stored grant, not the claim, decides whether a result may leave. */
  function FinishTx(s: Host, claim: Claim, f: Finding, output: Output, now: real): (Host, Option<string>) {
    if !Holds(s, claim) then
      (Noted(s, Receipt(claim.id, claim.host, claim.principal, NotKnown, ReservationLost, Some(claim.startedAt),
                        output.digest, output.size, output.complete)), None)
    else
      var row := s.grants[claim.id];
      var status :=
        if row.revoked then WasRevoked else if now >= row.expiresAt as real then WasExpired else StatusOf(f);
      var code := if row.revoked then RevokedCode else if now >= row.expiresAt as real then ExpiredCode else CodeOf(f);
      (Noted(s.(grants := s.grants[claim.id := row.(state := Completed)]),
             Receipt(claim.id, claim.host, claim.principal, status, code, Some(claim.startedAt), output.digest,
                     output.size, output.complete)),
       if status == Finished && f.Healthy? then Some(f.result) else None)
  }

  ghost predicate Enumerates(s: Host, ids: seq<string>) {
    && (forall id :: id in ids <==> id in s.grants && s.grants[id].state == Reserved)
    && (forall i, j :: 0 <= i < j < |ids| ==> ids[i] != ids[j])
  }

  function RestartReceipt(s: Host, id: string, emptyDigest: string): Receipt
    requires id in s.grants
  {
    Receipt(id, s.grants[id].host, s.grants[id].principal, NotKnown, RestartUnknown, s.grants[id].startedAt,
            emptyDigest, 0, false)
  }

  function Unsettled(s: Host): map<string, Grant> {
    map id | id in s.grants :: if s.grants[id].state == Reserved then s.grants[id].(state := Unknown) else s.grants[id]
  }

  function RestartReceipts(s: Host, ids: seq<string>, emptyDigest: string): seq<Receipt>
    requires forall id :: id in ids ==> id in s.grants
  {
    if ids == [] then []
    else RestartReceipts(s, ids[..|ids| - 1], emptyDigest) + [RestartReceipt(s, ids[|ids| - 1], emptyDigest)]
  }

  /** Startup: one receipt per reserved grant, in whatever order the table yields them. */
  function RecoverTx(s: Host, ids: seq<string>, emptyDigest: string): Host
    requires forall id :: id in ids ==> id in s.grants
  {
    s.(grants := Unsettled(s), receipts := s.receipts + RestartReceipts(s, ids, emptyDigest))
  }

  // ------------------------------------------------------------------ broker control

  datatype Verb = Grants | Revokes

  /** A message whose signature, fields and pinned profile have been verified. */
  datatype Message = Message(
    verb: Verb, id: string, manifest: string, maxSeconds: int, issuedAt: int, expiresAt: int,
    nonce: string, digest: string)

  /** The time window of `verify`; the clock is read once here and once more under the writer lock. */
  predicate InWindow(m: Message, now: real) {
    && now - 30.0 <= m.issuedAt as real <= now + 5.0
    && m.issuedAt < m.expiresAt <= m.issuedAt + 300
    && now < m.expiresAt as real
  }

  function ControlEffect(s: Host, host: string, principal: string, m: Message): Option<Host> {
    match m.verb
    case Grants =>
      if m.id in s.grants || m.id in s.authority then None
      else Some(Admitted(s, host, principal, m, false))
    case Revokes =>
      if m.id !in s.authority then
        if m.id in s.grants then None else Some(Admitted(s, host, principal, m, true))
      else if s.authority[m.id] != Authority(m.manifest, m.expiresAt) then None
      else if m.id !in s.grants then None
      else Some(s.(grants := s.grants[m.id := s.grants[m.id].(revoked := true)]))
  }

  /** `None` rolls everything back, the nonce included. */
  function ControlTx(s: Host, host: string, principal: string, m: Message, verified: real, locked: real): Option<Host> {
    if !InWindow(m, verified) || m.expiresAt as real <= locked then None
    else if m.nonce in s.nonces then None
    else ControlEffect(s.(nonces := s.nonces[m.nonce := m.digest]), host, principal, m)
  }

  function Admitted(s: Host, host: string, principal: string, m: Message, revoked: bool): Host {
    s.(grants := s.grants[m.id := NewGrant(host, principal, m.expiresAt, m.maxSeconds, revoked)],
       authority := s.authority[m.id := Authority(m.manifest, m.expiresAt)])
  }

  // ------------------------------------------------------------------ steps

  datatype Step =
    | CliGrant(id: string, host: string, principal: string, expiresAt: int, maxSeconds: int, t0: real, t1: real)
    | CliRevoke(id: string)
    | Reserve(id: string, host: string, principal: string, now: real, reservation: string, started: real)
    | Finish(claim: Claim, finding: Finding, output: Output, now: real)
    | Restart(order: seq<string>)
    | Control(host: string, principal: string, message: Message, verified: real, locked: real)

  function OrElse(o: Option<Host>, s: Host): Host {
    match o case None => s case Some(t) => t
  }

  /** Any interleaving of these; clocks may read anything, and any claim may be presented. */
  ghost function Next(s: Host, step: Step, emptyDigest: string): Host {
    match step
    case CliGrant(id, host, principal, expiresAt, maxSeconds, t0, t1) =>
      OrElse(GrantTx(s, id, host, principal, expiresAt, maxSeconds, t0, t1), s)
    case CliRevoke(id) => OrElse(RevokeTx(s, id), s)
    case Reserve(id, host, principal, now, reservation, started) =>
      ReserveTx(s, id, host, principal, now, reservation, started, emptyDigest).0
    case Finish(claim, finding, output, now) => FinishTx(s, claim, finding, output, now).0
    case Restart(order) => if Enumerates(s, order) then RecoverTx(s, order, emptyDigest) else s
    case Control(host, principal, message, verified, locked) =>
      OrElse(ControlTx(s, host, principal, message, verified, locked), s)
  }

  ghost function Run(s: Host, steps: seq<Step>, emptyDigest: string): Host
    decreases |steps|
  {
    if steps == [] then s else Next(Run(s, steps[..|steps| - 1], emptyDigest), steps[|steps| - 1], emptyDigest)
  }
}
