/** What each operation of the credential store accepts, stores and refuses, stated on bytes and rows. */
module Fido2Steps {
  import opened Wrappers
  import opened Fido2
  import opened Fido2Theorems

  // ------------------------------------------------------------------ authenticator data

  lemma BytesOfCounter(b: seq<byte>)
    requires |b| == 4
    ensures BigEndian(b) as int ==
      0x100_0000 * (b[0] as int) + 0x1_0000 * (b[1] as int) + 0x100 * (b[2] as int) + (b[3] as int)
  {
  }

  /** This text is the encoding of these 37 bytes, with any extension data after them. */
  ghost predicate Carries(env: Env, text: string, auth: AuthData) {
    && |auth.rpIdHash| == 32 && auth.counter < 0x1_0000_0000
    && exists rest :: env.decode(text) == Some(Encode(auth) + rest)
  }

  /** Bit 0 of the flags. */
  ghost predicate Present(auth: AuthData) {
    exists high :: auth.flags == 2 * high + 1
  }

  /** Bit 2 of the flags. */
  ghost predicate Verified(auth: AuthData) {
    auth.flags % 8 >= 4
  }

  lemma FlagsExact(auth: AuthData)
    ensures UserPresent(auth) <==> Present(auth)
    ensures UserVerified(auth) <==> Verified(auth)
  {
    if UserPresent(auth) { assert auth.flags == 2 * (auth.flags / 2) + 1; }
  }

  lemma CarriesExact(env: Env, text: string, auth: AuthData)
    ensures Carries(env, text, auth) <==> env.decode(text).Some? && Parse(env.decode(text).value) == Some(auth)
  {
    if Carries(env, text, auth) {
      var rest :| env.decode(text) == Some(Encode(auth) + rest);
      ParseEncoded(auth, rest);
    }
    if env.decode(text).Some? && Parse(env.decode(text).value) == Some(auth) {
      var data := env.decode(text).value;
      EncodeParsed(data);
      assert data == Encode(auth) + data[37..];
    }
  }

  lemma CarriesOne(env: Env, text: string, a: AuthData, b: AuthData)
    requires Carries(env, text, a) && Carries(env, text, b)
    ensures a == b
  {
    CarriesExact(env, text, a);
    CarriesExact(env, text, b);
  }

  // ------------------------------------------------------------------ registration

  ghost predicate Taken(store: Store, id: string) {
    exists i :: 0 <= i < |store| && store[i].credentialId == id
  }

  /** Made for this site, by a present user, with a usable key. */
  ghost predicate Enrols(env: Env, reg: Registration, auth: AuthData) {
    && Carries(env, reg.authenticatorData, auth) && Present(auth) && auth.rpIdHash == env.rpIdHash(env.rpId)
    && env.decode(reg.publicKey).Some? && env.isKey(env.decode(reg.publicKey).value)
  }

  lemma EnrolsParsed(env: Env, reg: Registration)
    ensures (exists auth :: Enrols(env, reg, auth)) <==>
      && env.decode(reg.authenticatorData).Some? && Parse(env.decode(reg.authenticatorData).value).Some?
      && Enrols(env, reg, Parse(env.decode(reg.authenticatorData).value).value)
  {
    forall auth ensures Carries(env, reg.authenticatorData, auth) <==>
        && env.decode(reg.authenticatorData).Some?
        && Parse(env.decode(reg.authenticatorData).value) == Some(auth)
    {
      CarriesExact(env, reg.authenticatorData, auth);
    }
  }

  /**
   * A registration is accepted exactly when its data was made for this site with the user present, its
   * key is usable and its id is new. Then the store gains exactly that credential, unbound; otherwise
   * nothing changes, and a taken id is reported only for a registration that is good otherwise.
   */
  lemma RegisterExact(env: Env, store: Store, reg: Registration, tag: string, now: int)
    ensures var (after, r) := Register(env, store, reg, tag, now);
      && (r.Ok? <==> (exists auth :: Enrols(env, reg, auth)) && !Taken(store, reg.credentialId))
      && (r.Ok? ==> r.value == Credential(reg.credentialId, reg.publicKey, reg.counter, now, tag, None))
      && after == (if r.Ok? then store + [r.value] else store)
      && (r == Err(AlreadyRegistered) <==> (exists auth :: Enrols(env, reg, auth)) && Taken(store, reg.credentialId))
      && (r == Err(UserPresenceNotSet) <==>
            exists auth :: Carries(env, reg.authenticatorData, auth) && !Present(auth))
      && (r.Err? ==> r.error in {AlreadyRegistered, UserPresenceNotSet, InvalidAuthData})
  {
    EnrolsParsed(env, reg);
    var bytes := env.decode(reg.authenticatorData);
    forall auth ensures Carries(env, reg.authenticatorData, auth) <==> bytes.Some? && Parse(bytes.value) == Some(auth) {
      CarriesExact(env, reg.authenticatorData, auth);
    }
    if bytes.Some? && Parse(bytes.value).Some? {
      FlagsExact(Parse(bytes.value).value);
      assert Carries(env, reg.authenticatorData, Parse(bytes.value).value);
    }
  }

  // ------------------------------------------------------------------ removal

  lemma CutMembers(store: Store, i: nat, c: Credential)
    requires Distinct(store) && i < |store|
    ensures c in store[..i] + store[i + 1..] <==> c in store && c != store[i]
  {
    var after := store[..i] + store[i + 1..];
    assert forall j :: 0 <= j < |after| ==> after[j] == if j < i then store[j] else store[j + 1];
    if c in store && c != store[i] {
      var j :| 0 <= j < |store| && store[j] == c;
      assert after[if j < i then j else j - 1] == c;
    }
  }

  lemma CutDistinct(store: Store, i: nat)
    requires Distinct(store) && i < |store|
    ensures Distinct(store[..i] + store[i + 1..])
    ensures forall j :: 0 <= j < |store| && j != i ==> store[j].credentialId != store[i].credentialId
  {
    var after := store[..i] + store[i + 1..];
    assert forall j :: 0 <= j < |after| ==> after[j] == if j < i then store[j] else store[j + 1];
  }

  lemma TakenMember(store: Store, id: string)
    ensures Taken(store, id) <==> exists c :: c in store && c.credentialId == id
  {
    if i :| 0 <= i < |store| && store[i].credentialId == id { assert store[i] in store; }
  }

  /** Removal leaves exactly the credentials with other ids, in an order in which ids are still unique. */
  lemma RemoveExact(store: Store, id: string)
    requires Distinct(store)
    ensures var (after, r) := Remove(store, id);
      && !Taken(after, id) && Distinct(after)
      && (forall c :: c in after <==> c in store && c.credentialId != id)
      && (r.Ok? <==> Taken(store, id))
      && (r.Ok? ==> r.value in store && r.value.credentialId == id)
      && (r.Err? ==> r.error == CredentialNotFound && after == store)
  {
    var (after, r) := Remove(store, id);
    if Find(store, id).Some? {
      var i := Find(store, id).value;
      CutDistinct(store, i);
      forall c: Credential ensures c in after <==> c in store && c.credentialId != id { CutMembers(store, i, c); }
    }
    TakenMember(after, id);
  }

  lemma {:induction false} StaysGone(env: Env, store: Store, steps: seq<Step>, id: string)
    requires !Taken(store, id)
    requires forall k :: 0 <= k < |steps| ==> !(steps[k].DoRegister? && steps[k].registration.credentialId == id)
    ensures !Taken(Run(env, store, steps), id)
    decreases |steps|
  {
    if steps != [] {
      var n := |steps| - 1;
      StaysGone(env, store, steps[..n], id);
      GoneNext(env, Run(env, store, steps[..n]), steps[n], id);
    }
  }

  lemma GoneNext(env: Env, store: Store, step: Step, id: string)
    requires !Taken(store, id) && !(step.DoRegister? && step.registration.credentialId == id)
    ensures !Taken(Next(env, store, step).0, id)
  {
  }

  /** From the removal on, and until it is registered again, nothing signed by the credential is accepted. */
  lemma RemovedRefused(env: Env, store: Store, id: string, steps: seq<Step>, step: Step)
    requires Distinct(store)
    requires forall k :: 0 <= k < |steps| ==> !(steps[k].DoRegister? && steps[k].registration.credentialId == id)
    ensures !Accepts(env, Run(env, Next(env, store, DoRemove(id)).0, steps), step, id)
  {
    RemoveExact(store, id);
    StaysGone(env, Next(env, store, DoRemove(id)).0, steps, id);
    AbsentRefused(env, Run(env, Next(env, store, DoRemove(id)).0, steps), step, id);
  }

  lemma AbsentRefused(env: Env, store: Store, step: Step, id: string)
    requires !Taken(store, id)
    ensures !Accepts(env, store, step, id)
  {
  }

  // ------------------------------------------------------------------ assertions

  /** What an accepted assertion writes: its counter, and the binding only if one was asked for. */
  ghost predicate Writes(env: Env, store: Store, a: Assertion, request: Request, i: nat, auth: AuthData, after: Store) {
    && i < |store| && store[i].credentialId == a.credentialId && Carries(env, a.authenticatorData, auth)
    && |after| == |store| && (forall k :: 0 <= k < |store| && k != i ==> after[k] == store[k])
    && after[i].credentialId == a.credentialId && after[i].publicKey == store[i].publicKey
    && after[i].createdAt == store[i].createdAt && after[i].tag == store[i].tag
    && after[i].counter == auth.counter
    && after[i].binding == match request case Bind(b) => Some(b) case _ => store[i].binding
  }

  lemma CommitWrites(env: Env, store: Store, a: Assertion, challenge: string, request: Request)
    returns (i: nat, auth: AuthData)
    requires Commit(env, store, a, challenge, request).1.Ok?
    ensures var (after, r) := Commit(env, store, a, challenge, request);
      Writes(env, store, a, request, i, auth, after) && r.value == after[i]
  {
    i := Find(store, a.credentialId).value;
    auth := AuthDataOf(env, a).value;
    CarriesExact(env, a.authenticatorData, auth);
  }

  /** From the step on: a credential bound by an accepted request satisfies that binding and no other. */
  lemma BoundByStep(env: Env, store: Store, bind: Step, steps: seq<Step>, later: Step, id: string)
    requires Distinct(store) && NeverRemoves(steps, id) && Accepts(env, store, bind, id) && bind.request.Bind?
    requires Accepts(env, Run(env, Next(env, store, bind).0, steps), later, id)
    ensures later.request.Possession? || later.request.binding == bind.request.binding
    ensures Next(env, Run(env, Next(env, store, bind).0, steps), later).1.value.binding == Some(bind.request.binding)
  {
    var i, auth := CommitWrites(env, store, bind.assertion, bind.challenge, bind.request);
    NextDistinct(env, store, bind);
    BindingImmutable(env, Next(env, store, bind).0, steps, i, id, later);
  }

  // ------------------------------------------------------------------ refusals

  ghost predicate Answered(env: Env, a: Assertion, challenge: string) {
    && env.decode(a.clientDataJson).Some?
    && env.clientData(env.decode(a.clientDataJson).value) == Some(ClientData("webauthn.get", challenge))
  }

  ghost predicate ForThisSite(env: Env, a: Assertion, challenge: string, auth: AuthData) {
    && Answered(env, a, challenge) && Carries(env, a.authenticatorData, auth) && Present(auth)
    && auth.rpIdHash == env.rpIdHash(env.rpId)
  }

  ghost predicate Signs(env: Env, a: Assertion, c: Credential)
    requires env.decode(a.authenticatorData).Some? && env.decode(a.clientDataJson).Some?
  {
    && env.decode(c.publicKey).Some? && env.decode(a.signature).Some?
    && env.isSignature(env.decode(a.signature).value)
    && env.signed(env.decode(c.publicKey).value,
                  env.decode(a.authenticatorData).value + env.hash(env.decode(a.clientDataJson).value),
                  env.decode(a.signature).value)
  }

  /** Which error a refused assertion meets: an absent user, an old counter, a bad signature, or bad data. */
  lemma VerifyRefusals(env: Env, a: Assertion, c: Credential, challenge: string, auth: AuthData)
    requires Carries(env, a.authenticatorData, auth)
    ensures var e := VerifyAssertion(env, a, c, challenge);
      && (e == Some(UserPresenceNotSet) <==> Answered(env, a, challenge) && !Present(auth))
      && (e == Some(CounterReplay) <==>
            ForThisSite(env, a, challenge, auth) && c.counter > 0 && auth.counter <= c.counter)
      && (e == Some(InvalidSignature) <==>
            && ForThisSite(env, a, challenge, auth) && (c.counter == 0 || c.counter < auth.counter)
            && env.decode(c.publicKey).Some? && env.isKey(env.decode(c.publicKey).value)
            && env.decode(a.signature).Some? && !Signs(env, a, c))
      && (e.Some? ==> e.value in {UserPresenceNotSet, CounterReplay, InvalidSignature, InvalidAuthData})
  {
    CarriesExact(env, a.authenticatorData, auth);
    FlagsExact(auth);
  }

  lemma NoDataRefused(env: Env, a: Assertion, c: Credential, challenge: string)
    requires forall auth :: !Carries(env, a.authenticatorData, auth)
    ensures VerifyAssertion(env, a, c, challenge) == Some(InvalidAuthData)
  {
    var bytes := env.decode(a.authenticatorData);
    if bytes.Some? && Parse(bytes.value).Some? { CarriesExact(env, a.authenticatorData, Parse(bytes.value).value); }
  }

  /** Which error a refused request meets before its assertion is looked at. */
  lemma CommitRefusals(env: Env, store: Store, a: Assertion, challenge: string, request: Request)
    ensures var r := Commit(env, store, a, challenge, request).1;
      && (r == Err(InvalidPrincipalBinding) <==> !request.Possession? && !env.bindingOk(request.binding))
      && (r == Err(CredentialNotFound) <==>
            (request.Possession? || env.bindingOk(request.binding)) && !Taken(store, a.credentialId))
  {
  }

  lemma BindingRefusal(env: Env, c: Credential, a: Assertion, challenge: string, request: Request)
    ensures CommitError(env, c, a, challenge, request) == Some(PrincipalBindingMismatch) <==>
      match request
      case Possession => false
      case Bind(b) => c.binding.Some? && c.binding != Some(b)
      case Bound(b) => c.binding != Some(b)
  {
    if CommitError(env, c, a, challenge, request) == Some(PrincipalBindingMismatch) {
      if AuthDataOf(env, a).Some? { OriginRefusals(env, a, AuthDataOf(env, a).value); }
    }
  }

  lemma OriginRefusals(env: Env, a: Assertion, auth: AuthData)
    ensures OriginError(env, a, auth) == Some(UserVerificationNotSet) <==> !Verified(auth)
    ensures OriginError(env, a, auth).Some? ==>
      OriginError(env, a, auth).value in {UserVerificationNotSet, InvalidAuthData}
  {
    FlagsExact(auth);
  }
}
