/** FIDO2 credentials: authenticator data, assertion checks and the credential store. */
module Fido2 {
  import opened Wrappers

  type byte = b: int | 0 <= b < 256

  // ------------------------------------------------------------------ authenticator data

  const MIN_LENGTH: nat := 37

  datatype AuthData = AuthData(rpIdHash: seq<byte>, flags: byte, counter: nat)

  function BigEndian(b: seq<byte>): (n: nat)
    requires |b| == 4
    ensures n < 0x1_0000_0000
  {
    var b0: int, b1: int, b2: int, b3: int := b[0], b[1], b[2], b[3];
    ((b0 * 256 + b1) * 256 + b2) * 256 + b3
  }

  function ToBigEndian(n: nat): (b: seq<byte>)
    requires n < 0x1_0000_0000
    ensures |b| == 4
  {
    [n / 0x100_0000, n / 0x1_0000 % 256, n / 256 % 256, n % 256]
  }

  /** Anything after the fixed 37 bytes is ignored. */
  function Parse(data: seq<byte>): Option<AuthData> {
    if |data| < MIN_LENGTH then None
    else Some(AuthData(data[..32], data[32], BigEndian(data[33..37])))
  }

  function Encode(a: AuthData): seq<byte>
    requires |a.rpIdHash| == 32 && a.counter < 0x1_0000_0000
  {
    a.rpIdHash + [a.flags] + ToBigEndian(a.counter)
  }

  predicate UserPresent(a: AuthData) { a.flags % 2 == 1 }
  predicate UserVerified(a: AuthData) { a.flags / 4 % 2 == 1 }

  // ------------------------------------------------------------------ credentials

  datatype Binding = Binding(principalId: string, issuer: string, subject: string, tenantId: string, brokerId: string)

  datatype Credential = Credential(
    credentialId: string, publicKey: string, counter: nat, createdAt: int, tag: string, binding: Option<Binding>)

  datatype Assertion = Assertion(credentialId: string, authenticatorData: string, clientDataJson: string,
                                 signature: string)

  datatype Registration = Registration(credentialId: string, publicKey: string, counter: nat, authenticatorData: string)

  datatype Error =
    | InvalidAuthData | UserPresenceNotSet | UserVerificationNotSet | CounterReplay | InvalidSignature
    | CredentialNotFound | AlreadyRegistered | PrincipalBindingMismatch | InvalidPrincipalBinding

  datatype ClientData = ClientData(kind: string, challenge: string)
  datatype BoundClientData = BoundClientData(origin: string, crossOrigin: bool)

  /** Encodings, hashing and signatures, which may be anything. */
  datatype Env = Env(
    rpId: string,
    decode: string -> Option<seq<byte>>,
    clientData: seq<byte> -> Option<ClientData>,
    boundClientData: seq<byte> -> Option<BoundClientData>,
    hash: seq<byte> -> seq<byte>,
    rpIdHash: string -> seq<byte>,
    isKey: seq<byte> -> bool,
    isSignature: seq<byte> -> bool,
    signed: (seq<byte>, seq<byte>, seq<byte>) -> bool,
    bindingOk: Binding -> bool)

  type Store = seq<Credential>

  // ------------------------------------------------------------------ verification

  /** `None` is acceptance; the first failing check decides the error. */
  function VerifyAssertion(env: Env, a: Assertion, credential: Credential, challenge: string): Option<Error> {
    match env.decode(a.clientDataJson)
    case None => Some(InvalidAuthData)
    case Some(clientBytes) =>
      if env.clientData(clientBytes).None? then Some(InvalidAuthData)
      else if env.clientData(clientBytes).value.kind != "webauthn.get" then Some(InvalidAuthData)
      else if env.clientData(clientBytes).value.challenge != challenge then Some(InvalidAuthData)
      else
        match AuthDataOf(env, a)
        case None => Some(InvalidAuthData)
        case Some(auth) =>
          if !UserPresent(auth) then Some(UserPresenceNotSet)
          else if auth.rpIdHash != env.rpIdHash(env.rpId) then Some(InvalidAuthData)
          else if credential.counter > 0 && auth.counter <= credential.counter then Some(CounterReplay)
          else SignatureError(env, a, credential, clientBytes)
  }

  function AuthDataOf(env: Env, a: Assertion): Option<AuthData> {
    match env.decode(a.authenticatorData)
    case None => None
    case Some(bytes) => Parse(bytes)
  }

  function SignatureError(env: Env, a: Assertion, credential: Credential, clientBytes: seq<byte>): Option<Error>
    requires env.decode(a.authenticatorData).Some?
  {
    var message := env.decode(a.authenticatorData).value + env.hash(clientBytes);
    match env.decode(credential.publicKey)
    case None => Some(InvalidAuthData)
    case Some(key) =>
      if !env.isKey(key) then Some(InvalidAuthData)
      else
        match env.decode(a.signature)
        case None => Some(InvalidAuthData)
        case Some(sig) =>
          if !env.isSignature(sig) || !env.signed(key, message, sig) then Some(InvalidSignature) else None
  }

  /** What a caller asks for besides possession: nothing, a binding to create, or one that must exist. */
  datatype Request = Possession | Bind(binding: Binding) | Bound(binding: Binding)

  function BindingError(request: Request, current: Option<Binding>): Option<Error> {
    match request
    case Possession => None
    case Bind(b) => if current.Some? && current.value != b then Some(PrincipalBindingMismatch) else None
    case Bound(b) => if current != Some(b) then Some(PrincipalBindingMismatch) else None
  }

  function OriginError(env: Env, a: Assertion, auth: AuthData): Option<Error> {
    if !UserVerified(auth) then Some(UserVerificationNotSet)
    else
      match env.decode(a.clientDataJson)
      case None => Some(InvalidAuthData)
      case Some(bytes) =>
        match env.boundClientData(bytes)
        case None => Some(InvalidAuthData)
        case Some(d) => if d.origin != "https://" + env.rpId || d.crossOrigin then Some(InvalidAuthData) else None
  }

  /** The first credential with this id, as `iter().find` sees it. */
  function Find(store: Store, id: string): (r: Option<nat>)
    ensures r.Some? ==> r.value < |store| && store[r.value].credentialId == id
    ensures r.None? ==> forall i :: 0 <= i < |store| ==> store[i].credentialId != id
  {
    if store == [] then None
    else if store[0].credentialId == id then Some(0)
    else match Find(store[1..], id) case None => None case Some(i) => Some(i + 1)
  }

  function CommitError(env: Env, credential: Credential, a: Assertion, challenge: string,
                       request: Request): Option<Error> {
    if BindingError(request, credential.binding).Some? then BindingError(request, credential.binding)
    else if VerifyAssertion(env, a, credential, challenge).Some? then VerifyAssertion(env, a, credential, challenge)
    else if AuthDataOf(env, a).None? then Some(InvalidAuthData)
    else if request.Possession? then None
    else OriginError(env, a, AuthDataOf(env, a).value)
  }

  function Committed(credential: Credential, auth: AuthData, request: Request): Credential {
    credential.(counter := auth.counter, binding := if request.Bind? then Some(request.binding) else credential.binding)
  }

  /** Verify and commit under one lock: counter and binding are saved together, or nothing is. */
  function Commit(env: Env, store: Store, a: Assertion, challenge: string, request: Request): (Store,
                  Result<Credential, Error>) {
    if !request.Possession? && !env.bindingOk(request.binding) then (store, Err(InvalidPrincipalBinding))
    else
      match Find(store, a.credentialId)
      case None => (store, Err(CredentialNotFound))
      case Some(i) =>
        match CommitError(env, store[i], a, challenge, request)
        case Some(e) => (store, Err(e))
        case None =>
          var credential := Committed(store[i], AuthDataOf(env, a).value, request);
          (store[i := credential], Ok(credential))
  }

  function Register(env: Env, store: Store, r: Registration, tag: string, now: int): (Store, Result<Credential,
                    Error>) {
    match env.decode(r.authenticatorData)
    case None => (store, Err(InvalidAuthData))
    case Some(bytes) =>
      match Parse(bytes)
      case None => (store, Err(InvalidAuthData))
      case Some(auth) =>
        if !UserPresent(auth) then (store, Err(UserPresenceNotSet))
        else if auth.rpIdHash != env.rpIdHash(env.rpId) then (store, Err(InvalidAuthData))
        else if env.decode(r.publicKey).None? || !env.isKey(env.decode(r.publicKey).value) then
          (store, Err(InvalidAuthData))
        else if Find(store, r.credentialId).Some? then (store, Err(AlreadyRegistered))
        else
          var credential := Credential(r.credentialId, r.publicKey, r.counter, now, tag, None);
          (store + [credential], Ok(credential))
  }

  function Remove(store: Store, id: string): (Store, Result<Credential, Error>) {
    match Find(store, id)
    case None => (store, Err(CredentialNotFound))
    case Some(i) => (store[..i] + store[i + 1..], Ok(store[i]))
  }

  // ------------------------------------------------------------------ steps

  datatype Step =
    | DoCommit(assertion: Assertion, challenge: string, request: Request)
    | DoRegister(registration: Registration, tag: string, now: int)
    | DoRemove(id: string)

  function Next(env: Env, store: Store, step: Step): (Store, Result<Credential, Error>) {
    match step
    case DoCommit(a, challenge, request) => Commit(env, store, a, challenge, request)
    case DoRegister(r, tag, now) => Register(env, store, r, tag, now)
    case DoRemove(id) => Remove(store, id)
  }

  function Run(env: Env, store: Store, steps: seq<Step>): Store
    decreases |steps|
  {
    if steps == [] then store else Next(env, Run(env, store, steps[..|steps| - 1]), steps[|steps| - 1]).0
  }
}
