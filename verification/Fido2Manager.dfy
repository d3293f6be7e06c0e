/** The credential manager: the stored list is loaded, searched, changed and saved in place. */
module Fido2Manager {
  import opened Wrappers
  import opened Fido2
  import opened Fido2Theorems

  class Manager {
    const env: Env
    var credentials: Store

    constructor (e: Env)
      ensures env == e && credentials == [] && Valid()
    {
      env, credentials := e, [];
    }

    ghost predicate Valid()
      reads this
    {
      Distinct(credentials)
    }

    method Position(id: string) returns (r: Option<nat>)
      ensures r == Find(credentials, id)
    {
      var i := 0;
      while i < |credentials|
        invariant 0 <= i <= |credentials|
        invariant Find(credentials, id) ==
          match Find(credentials[i..], id) case None => None case Some(k) => Some(k + i)
      {
        if credentials[i].credentialId == id { return Some(i); }
        assert credentials[i..][1..] == credentials[i + 1..];
        i := i + 1;
      }
      return None;
    }

    method VerifyAndCommit(a: Assertion, challenge: string, request: Request) returns (r: Result<Credential, Error>)
      requires Valid()
      modifies this`credentials
      ensures (credentials, r) == Commit(env, old(credentials), a, challenge, request)
      ensures Valid()
    {
      NextDistinct(env, credentials, DoCommit(a, challenge, request));
      if !request.Possession? && !env.bindingOk(request.binding) { return Err(InvalidPrincipalBinding); }
      var found := Position(a.credentialId);
      if found.None? { return Err(CredentialNotFound); }
      var credential := credentials[found.value];
      match request {
        case Possession =>
        case Bind(b) =>
          if credential.binding.Some? && credential.binding.value != b { return Err(PrincipalBindingMismatch); }
        case Bound(b) => if credential.binding != Some(b) { return Err(PrincipalBindingMismatch); }
      }
      var bad := VerifyAssertion(env, a, credential, challenge);
      if bad.Some? { return Err(bad.value); }
      var auth := AuthDataOf(env, a);
      if auth.None? { return Err(InvalidAuthData); }
      if !request.Possession? {
        var foreign := OriginError(env, a, auth.value);
        if foreign.Some? { return Err(foreign.value); }
      }
      credential := credential.(counter := auth.value.counter);
      if request.Bind? { credential := credential.(binding := Some(request.binding)); }
      credentials := credentials[found.value := credential];
      return Ok(credential);
    }

    method ValidateAndStore(reg: Registration, tag: string, now: int) returns (r: Result<Credential, Error>)
      requires Valid()
      modifies this`credentials
      ensures (credentials, r) == Register(env, old(credentials), reg, tag, now)
      ensures Valid()
    {
      NextDistinct(env, credentials, DoRegister(reg, tag, now));
      var bytes := env.decode(reg.authenticatorData);
      if bytes.None? { return Err(InvalidAuthData); }
      var auth := Parse(bytes.value);
      if auth.None? { return Err(InvalidAuthData); }
      if !UserPresent(auth.value) { return Err(UserPresenceNotSet); }
      if auth.value.rpIdHash != env.rpIdHash(env.rpId) { return Err(InvalidAuthData); }
      var key := env.decode(reg.publicKey);
      if key.None? || !env.isKey(key.value) { return Err(InvalidAuthData); }
      var existing := Position(reg.credentialId);
      if existing.Some? { return Err(AlreadyRegistered); }
      var credential := Credential(reg.credentialId, reg.publicKey, reg.counter, now, tag, None);
      credentials := credentials + [credential];
      return Ok(credential);
    }

    method Forget(id: string) returns (r: Result<Credential, Error>)
      requires Valid()
      modifies this`credentials
      ensures (credentials, r) == Remove(old(credentials), id)
      ensures Valid()
    {
      NextDistinct(env, credentials, DoRemove(id));
      var found := Position(id);
      if found.None? { return Err(CredentialNotFound); }
      var gone := credentials[found.value];
      credentials := credentials[..found.value] + credentials[found.value + 1..];
      return Ok(gone);
    }
  }
}
