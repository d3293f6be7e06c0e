/** Guarantees of the credential store over every run of registrations, assertions and removals. */
module Fido2Theorems {
  import opened Wrappers
  import opened Fido2

  // ------------------------------------------------------------------ authenticator data

  lemma BigEndianRoundTrip(n: nat)
    requires n < 0x1_0000_0000
    ensures BigEndian(ToBigEndian(n)) == n
  {
    var high, low := n / 0x1_0000, n % 0x1_0000;
    assert n / 0x100_0000 == high / 256 && n / 256 % 256 == low / 256;
    assert high == (high / 256) * 256 + high % 256 && low == (low / 256) * 256 + low % 256;
  }

  lemma ToBigEndianRoundTrip(b: seq<byte>)
    requires |b| == 4
    ensures ToBigEndian(BigEndian(b)) == b
  {
    var b0: int, b1: int, b2: int, b3: int := b[0], b[1], b[2], b[3];
    var n := BigEndian(b);
    assert n / 0x100_0000 == b0;
    assert n / 0x1_0000 == b0 * 256 + b1;
    assert n / 256 == b0 * 0x1_0000 + b1 * 256 + b2;
  }

  /** Parsing inverts encoding, whatever extension data follows. */
  lemma ParseEncoded(a: AuthData, extensions: seq<byte>)
    requires |a.rpIdHash| == 32 && a.counter < 0x1_0000_0000
    ensures Parse(Encode(a) + extensions) == Some(a)
  {
    var data := Encode(a) + extensions;
    assert data[..32] == a.rpIdHash;
    assert data[33..37] == ToBigEndian(a.counter);
    BigEndianRoundTrip(a.counter);
  }

  /** Whatever parses is the encoding of what was read, followed by ignored bytes. */
  lemma EncodeParsed(data: seq<byte>)
    requires Parse(data).Some?
    ensures var a := Parse(data).value;
      |a.rpIdHash| == 32 && a.counter < 0x1_0000_0000 && Encode(a) == data[..37]
  {
    ToBigEndianRoundTrip(data[33..37]);
    assert data[..37] == data[..32] + [data[32]] + data[33..37];
  }

  // ------------------------------------------------------------------ the store

  ghost predicate Distinct(store: Store) {
    forall i, j :: 0 <= i < j < |store| ==> store[i].credentialId != store[j].credentialId
  }

  lemma FindUnique(store: Store, i: nat)
    requires Distinct(store) && i < |store|
    ensures Find(store, store[i].credentialId) == Some(i)
  {
  }

  lemma NextDistinct(env: Env, store: Store, step: Step)
    requires Distinct(store)
    ensures Distinct(Next(env, store, step).0)
  {
  }

  /** A step that fails leaves every counter and binding as it was. */
  lemma FailureChangesNothing(env: Env, store: Store, step: Step)
    requires Next(env, store, step).1.Err?
    ensures Next(env, store, step).0 == store
  {
  }

  lemma {:induction false} RunDistinct(env: Env, store: Store, steps: seq<Step>)
    requires Distinct(store)
    ensures Distinct(Run(env, store, steps))
    decreases |steps|
  {
    if steps != [] {
      RunDistinct(env, store, steps[..|steps| - 1]);
      NextDistinct(env, Run(env, store, steps[..|steps| - 1]), steps[|steps| - 1]);
    }
  }

  /** What a credential keeps while it stays registered. */
  ghost predicate Kept(a: Credential, b: Credential) {
    && b.credentialId == a.credentialId && b.publicKey == a.publicKey && b.tag == a.tag && b.createdAt == a.createdAt
    && a.counter <= b.counter
    && (a.binding.Some? ==> b.binding == a.binding)
  }

  ghost predicate Removes(step: Step, id: string) {
    step.DoRemove? && step.id == id
  }

  ghost predicate KeptIn(a: Store, b: Store, id: string) {
    forall i :: 0 <= i < |a| && a[i].credentialId == id ==> exists j :: 0 <= j < |b| && Kept(a[i], b[j])
  }

  lemma CommitRaises(env: Env, credential: Credential, a: Assertion, challenge: string, request: Request)
    requires CommitError(env, credential, a, challenge, request).None?
    ensures AuthDataOf(env, a).Some?
    ensures var auth := AuthDataOf(env, a).value;
      && (credential.counter > 0 ==> credential.counter < auth.counter)
      && Kept(credential, Committed(credential, auth, request))
  {
  }

  lemma CommitKeeps(env: Env, store: Store, a: Assertion, challenge: string, request: Request, id: string)
    ensures KeptIn(store, Commit(env, store, a, challenge, request).0, id)
  {
    var after := Commit(env, store, a, challenge, request).0;
    forall i | 0 <= i < |store| && store[i].credentialId == id
      ensures exists j :: 0 <= j < |after| && Kept(store[i], after[j])
    {
      if after == store || Find(store, a.credentialId) != Some(i) {
        assert after[i] == store[i] && Kept(store[i], after[i]);
      } else {
        CommitRaises(env, store[i], a, challenge, request);
        assert Kept(store[i], after[i]);
      }
    }
  }

  lemma NextKeeps(env: Env, store: Store, step: Step, id: string)
    requires !Removes(step, id)
    ensures KeptIn(store, Next(env, store, step).0, id)
  {
    var after := Next(env, store, step).0;
    match step
    case DoCommit(a, challenge, request) => CommitKeeps(env, store, a, challenge, request, id);
    case DoRegister(r, tag, now) =>
      forall i | 0 <= i < |store| && store[i].credentialId == id
        ensures exists j :: 0 <= j < |after| && Kept(store[i], after[j])
      {
        assert after[i] == store[i];
      }
    case DoRemove(x) =>
      forall i | 0 <= i < |store| && store[i].credentialId == id
        ensures exists j :: 0 <= j < |after| && Kept(store[i], after[j])
      {
        var gone := if Find(store, x).Some? then Find(store, x).value else |store|;
        assert gone != i;
        if i < gone { assert after[i] == store[i]; } else { assert after[i - 1] == store[i]; }
      }
  }

  ghost predicate NeverRemoves(steps: seq<Step>, id: string) {
    forall i :: 0 <= i < |steps| ==> !Removes(steps[i], id)
  }

  lemma {:induction false} RunKeeps(env: Env, store: Store, steps: seq<Step>, id: string)
    requires NeverRemoves(steps, id)
    ensures KeptIn(store, Run(env, store, steps), id)
    decreases |steps|
  {
    if steps == [] {
      forall i | 0 <= i < |store| && store[i].credentialId == id
        ensures exists j :: 0 <= j < |store| && Kept(store[i], store[j])
      {
        assert Kept(store[i], store[i]);
      }
    } else {
      var n := |steps| - 1;
      var mid, end := Run(env, store, steps[..n]), Run(env, store, steps);
      RunKeeps(env, store, steps[..n], id);
      NextKeeps(env, mid, steps[n], id);
      forall i | 0 <= i < |store| && store[i].credentialId == id
        ensures exists j :: 0 <= j < |end| && Kept(store[i], end[j])
      {
        var k :| 0 <= k < |mid| && Kept(store[i], mid[k]);
        var j :| 0 <= j < |end| && Kept(mid[k], end[j]);
        assert Kept(store[i], end[j]);
      }
    }
  }

  // ------------------------------------------------------------------ assertions

  ghost predicate Accepts(env: Env, store: Store, step: Step, id: string) {
    step.DoCommit? && step.assertion.credentialId == id && Next(env, store, step).1.Ok?
  }

  /** Signed by this credential's key, for this challenge and site, with the user present and a fresh counter. */
  ghost predicate Genuine(env: Env, a: Assertion, c: Credential, challenge: string) {
    && env.decode(a.clientDataJson).Some? && env.decode(a.authenticatorData).Some?
    && env.decode(c.publicKey).Some? && env.decode(a.signature).Some?
    && var client, data := env.decode(a.clientDataJson).value, env.decode(a.authenticatorData).value;
    && Parse(data).Some?
    && var auth := Parse(data).value;
    && env.clientData(client) == Some(ClientData("webauthn.get", challenge))
    && auth.flags % 2 == 1 && auth.rpIdHash == env.rpIdHash(env.rpId)
    && (c.counter == 0 || c.counter < auth.counter)
    && env.isKey(env.decode(c.publicKey).value) && env.isSignature(env.decode(a.signature).value)
    && env.signed(env.decode(c.publicKey).value, data + env.hash(client), env.decode(a.signature).value)
  }

  /** A bound request also needs user verification, this site's own origin, and a binding that does not conflict. */
  ghost predicate Suits(env: Env, a: Assertion, c: Credential, request: Request) {
    request.Possession? ||
    (&& env.bindingOk(request.binding)
     && (c.binding == Some(request.binding) || (request.Bind? && c.binding.None?))
     && env.decode(a.authenticatorData).Some? && Parse(env.decode(a.authenticatorData).value).Some?
     && Parse(env.decode(a.authenticatorData).value).value.flags / 4 % 2 == 1
     && env.decode(a.clientDataJson).Some?
     && env.boundClientData(env.decode(a.clientDataJson).value) == Some(BoundClientData("https://" + env.rpId, false)))
  }

  lemma VerifyExact(env: Env, a: Assertion, c: Credential, challenge: string)
    ensures VerifyAssertion(env, a, c, challenge).None? <==> Genuine(env, a, c, challenge)
  {
  }

  lemma OriginExact(env: Env, a: Assertion, auth: AuthData)
    ensures OriginError(env, a, auth).None? <==>
      && UserVerified(auth) && env.decode(a.clientDataJson).Some?
      && env.boundClientData(env.decode(a.clientDataJson).value) == Some(BoundClientData("https://" + env.rpId, false))
  {
  }

  /**
   * An assertion is accepted exactly when its credential is registered, it is genuine, and it suits the
   * request; otherwise no counter and no binding changes.
   */
  lemma CommitExact(env: Env, store: Store, a: Assertion, challenge: string, request: Request)
    requires Distinct(store)
    ensures Commit(env, store, a, challenge, request).1.Ok? <==>
      exists i :: 0 <= i < |store| && store[i].credentialId == a.credentialId
        && Genuine(env, a, store[i], challenge) && Suits(env, a, store[i], request)
    ensures Commit(env, store, a, challenge, request).1.Err? ==> Commit(env, store, a, challenge, request).0 == store
  {
    if Commit(env, store, a, challenge, request).1.Err? {
      FailureChangesNothing(env, store, DoCommit(a, challenge, request));
    }
    forall i | 0 <= i < |store| && store[i].credentialId == a.credentialId
      ensures Find(store, a.credentialId) == Some(i)
      ensures Commit(env, store, a, challenge, request).1.Ok? <==>
        Genuine(env, a, store[i], challenge) && Suits(env, a, store[i], request)
    {
      FindUnique(store, i);
      VerifyExact(env, a, store[i], challenge);
      if AuthDataOf(env, a).Some? { OriginExact(env, a, AuthDataOf(env, a).value); }
    }
  }

  /** The counter an accepted assertion carried. */
  function CounterOf(env: Env, a: Assertion): nat {
    if AuthDataOf(env, a).Some? then AuthDataOf(env, a).value.counter else 0
  }

  /** After an acceptance the stored counter is the assertion's own. */
  lemma AcceptedCounter(env: Env, store: Store, step: Step, id: string)
    requires Accepts(env, store, step, id)
    ensures var after := Next(env, store, step).0;
      exists i :: 0 <= i < |after| && after[i].credentialId == id && after[i].counter == CounterOf(env, step.assertion)
  {
    var i := Find(store, id).value;
    CommitRaises(env, store[i], step.assertion, step.challenge, step.request);
    var after := Next(env, store, step).0;
    assert after[i].credentialId == id && after[i].counter == CounterOf(env, step.assertion);
  }

  /** An accepted assertion beats every stored positive counter of its credential. */
  lemma AcceptedBeats(env: Env, store: Store, step: Step, id: string, i: nat)
    requires Distinct(store) && i < |store| && store[i].credentialId == id && store[i].counter > 0
    requires Accepts(env, store, step, id)
    ensures store[i].counter < CounterOf(env, step.assertion)
  {
    FindUnique(store, i);
    CommitRaises(env, store[i], step.assertion, step.challenge, step.request);
  }

  lemma RefusedLater(env: Env, store: Store, between: seq<Step>, id: string, k: nat, step: Step)
    requires Distinct(store) && k < |store| && store[k].credentialId == id && NeverRemoves(between, id)
    requires store[k].counter > 0 && step.DoCommit? && CounterOf(env, step.assertion) <= store[k].counter
    ensures !Accepts(env, Run(env, store, between), step, id)
  {
    var late := Run(env, store, between);
    RunKeeps(env, store, between, id);
    RunDistinct(env, store, between);
    var m :| 0 <= m < |late| && Kept(store[k], late[m]);
    if Accepts(env, late, step, id) { AcceptedBeats(env, late, step, id, m); }
  }

  /**
   * While a credential stays registered, an assertion whose counter does not exceed one already
   * accepted with a positive counter is never accepted again: not replayed, not by another path,
   * not for another challenge or binding.
   */
  lemma NoReplay(env: Env, store: Store, first: Step, between: seq<Step>, second: Step, id: string)
    requires Distinct(store) && NeverRemoves(between, id)
    requires Accepts(env, store, first, id) && CounterOf(env, first.assertion) > 0
    requires second.DoCommit? && CounterOf(env, second.assertion) <= CounterOf(env, first.assertion)
    ensures !Accepts(env, Run(env, Next(env, store, first).0, between), second, id)
  {
    var mid := Next(env, store, first).0;
    AcceptedCounter(env, store, first, id);
    var k :| 0 <= k < |mid| && mid[k].credentialId == id && mid[k].counter == CounterOf(env, first.assertion);
    NextDistinct(env, store, first);
    RefusedLater(env, mid, between, id, k, second);
  }

  /**
   * The exact extent of counter protection: an assertion just accepted is accepted again, for the same
   * challenge and request, if and only if its authenticator does not count.
   */
  lemma RepeatedAtOnce(env: Env, store: Store, step: Step, id: string)
    requires Distinct(store) && Accepts(env, store, step, id)
    ensures Accepts(env, Next(env, store, step).0, step, id) <==> CounterOf(env, step.assertion) == 0
  {
    var i := Find(store, id).value;
    var after := Next(env, store, step).0;
    CommitRaises(env, store[i], step.assertion, step.challenge, step.request);
    NextDistinct(env, store, step);
    FindUnique(after, i);
    RepeatedCheck(env, store[i], after[i], step);
  }

  lemma RepeatedCheck(env: Env, before: Credential, after: Credential, step: Step)
    requires step.DoCommit? && CommitError(env, before, step.assertion, step.challenge, step.request).None?
    requires AuthDataOf(env, step.assertion).Some?
      && after == Committed(before, AuthDataOf(env, step.assertion).value, step.request)
    ensures CommitError(env, after, step.assertion, step.challenge, step.request).None? <==>
      CounterOf(env, step.assertion) == 0
  {
  }

  /** A site whose only authenticator does not count, and an assertion it made. */
  const AUTHENTICATOR_DATA: seq<byte> := seq(37, i => if i == 32 then 1 else 0)

  const UNCOUNTED: Env := Env(
    "example.org",
    (text: string) => Some(AUTHENTICATOR_DATA),
    (bytes: seq<byte>) => Some(ClientData("webauthn.get", "challenge")),
    (bytes: seq<byte>) => None,
    (bytes: seq<byte>) => [],
    (text: string) => AUTHENTICATOR_DATA[..32],
    (bytes: seq<byte>) => true,
    (bytes: seq<byte>) => true,
    (key: seq<byte>, message: seq<byte>, signature: seq<byte>) => true,
    (binding: Binding) => true)

  /** Such assertions exist: this one is accepted and leaves the store as it was, to be accepted again. */
  lemma UncountedRepeats()
    ensures var store := [Credential("key", "", 0, 0, "", None)];
      var step := DoCommit(Assertion("key", "", "", ""), "challenge", Possession);
      && Distinct(store) && Accepts(UNCOUNTED, store, step, "key")
      && Next(UNCOUNTED, store, step) == (store, Ok(store[0]))
  {
    var store := [Credential("key", "", 0, 0, "", None)];
    var step := DoCommit(Assertion("key", "", "", ""), "challenge", Possession);
    var auth := AuthDataOf(UNCOUNTED, step.assertion);
    assert BigEndian(AUTHENTICATOR_DATA[33..37]) == 0;
    assert auth == Some(AuthData(AUTHENTICATOR_DATA[..32], 1, 0));
    assert Find(store, "key") == Some(0);
    VerifyExact(UNCOUNTED, step.assertion, store[0], "challenge");
    assert store[0 := Committed(store[0], auth.value, Possession)] == store;
  }

  /** An accepted assertion was made for exactly the challenge it was checked against. */
  lemma AcceptedAnswers(env: Env, store: Store, step: Step, id: string)
    requires Accepts(env, store, step, id)
    ensures var bytes := env.decode(step.assertion.clientDataJson);
      && bytes.Some? && env.clientData(bytes.value).Some?
      && env.clientData(bytes.value).value == ClientData("webauthn.get", step.challenge)
  {
  }

  lemma BoundAccept(env: Env, store: Store, m: nat, step: Step)
    requires Distinct(store) && m < |store| && store[m].binding.Some?
      && Accepts(env, store, step, store[m].credentialId)
    ensures step.request.Possession? || step.request.binding == store[m].binding.value
    ensures Next(env, store, step).1.value.binding == store[m].binding
  {
    FindUnique(store, m);
    BoundRequest(env, store[m], step);
  }

  /** A binding, once made, is the only one the credential ever satisfies or can be given again. */
  lemma BindingImmutable(env: Env, store: Store, steps: seq<Step>, i: nat, id: string, step: Step)
    requires Distinct(store) && i < |store| && store[i].credentialId == id && store[i].binding.Some?
    requires NeverRemoves(steps, id) && Accepts(env, Run(env, store, steps), step, id)
    ensures step.request.Possession? || step.request.binding == store[i].binding.value
    ensures Next(env, Run(env, store, steps), step).1.value.binding == store[i].binding
  {
    var late := Run(env, store, steps);
    RunKeeps(env, store, steps, id);
    RunDistinct(env, store, steps);
    var m :| 0 <= m < |late| && Kept(store[i], late[m]);
    BoundAccept(env, late, m, step);
  }

  lemma BoundRequest(env: Env, credential: Credential, step: Step)
    requires step.DoCommit? && credential.binding.Some?
    requires CommitError(env, credential, step.assertion, step.challenge, step.request).None?
    ensures step.request.Possession? || step.request.binding == credential.binding.value
  {
  }
}
