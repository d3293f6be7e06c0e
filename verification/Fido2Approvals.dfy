/** FIDO2 approvals end to end: rounds whose responses are verified and committed by the credential store. */
module Fido2Approvals {
  import opened Wrappers
  import opened Fido2
  import T = Fido2Theorems
  import opened ApprovalRounds

  type Table = ApprovalRounds.Table<Assertion>
  type RoundStep = ApprovalRounds.Step<Assertion>

  datatype System = System(table: Table, store: Store)

  /**
   * Verification is one commit of the store, made between a responder's lookup and its answer. Whatever
   * else the store is asked for meanwhile, registrations, bindings and removals, is `Stored`.
   */
  datatype Act =
    | Rounds(step: RoundStep)
    | Answer(who: nat, assertion: Assertion)
    | Stored(change: Fido2.Step)

  predicate Waiting(t: Table, who: nat) {
    who in t.flights && t.flights[who].verified.None?
  }

  function Act1(env: Env, s: System, act: Act): System {
    match act
    case Rounds(step) => if step.Verify? then s else s.(table := ApprovalRounds.Next(KeepsSpent, s.table, step))
    case Answer(who, a) =>
      if !Waiting(s.table, who) then s
      else
        var (store, r) := Commit(env, s.store, a, s.table.flights[who].challenge, Possession);
        System(VerifyResponse(s.table, who, a, r.Ok?), store)
    case Stored(change) => s.(store := Fido2.Next(env, s.store, change).0)
  }

  function Acts(env: Env, s: System, acts: seq<Act>): System
    decreases |acts|
  {
    if acts == [] then s else Act1(env, Acts(env, s, acts[..|acts| - 1]), acts[|acts| - 1])
  }

  const START := System(ApprovalRounds.Empty(), [])

  // ------------------------------------------------------------------ what every act keeps

  /** The signed client data of this assertion names this challenge. */
  ghost predicate Names(env: Env, a: Assertion, challenge: string) {
    var bytes := env.decode(a.clientDataJson);
    bytes.Some? && env.clientData(bytes.value) == Some(ClientData("webauthn.get", challenge))
  }

  ghost predicate InFlight(t: Table, who: nat, a: Assertion) {
    who in t.flights && t.flights[who].verified == Some(a)
  }

  ghost predicate Delivered(t: Table, i: nat, a: Assertion) {
    i < |t.delivered| && t.delivered[i].response == a
  }

  /** The store has already counted this assertion. */
  ghost predicate Counted(env: Env, store: Store, a: Assertion) {
    exists i :: 0 <= i < |store| && store[i].credentialId == a.credentialId && store[i].counter >= T.CounterOf(env, a)
  }

  ghost predicate Answers(env: Env, t: Table) {
    && (forall who :: who in t.flights && t.flights[who].verified.Some? ==>
          Names(env, t.flights[who].verified.value, t.flights[who].challenge))
    && (forall i :: 0 <= i < |t.delivered| ==> Names(env, t.delivered[i].response, t.delivered[i].challenge))
  }

  ghost predicate Sure(env: Env, s: System) {
    Inv(s.table) && T.Distinct(s.store) && Answers(env, s.table)
  }

  ghost predicate Accounted(env: Env, s: System, id: string) {
    && (forall who, a :: InFlight(s.table, who, a) && a.credentialId == id ==> Counted(env, s.store, a))
    && (forall i: nat, a :: Delivered(s.table, i, a) && a.credentialId == id ==> Counted(env, s.store, a))
  }

  /** No counted assertion of this credential is in two places. */
  ghost predicate UsedOnce(env: Env, t: Table, id: string) {
    forall a: Assertion | a.credentialId == id && T.CounterOf(env, a) > 0 ::
      && (forall v, w :: InFlight(t, v, a) && InFlight(t, w, a) ==> v == w)
      && (forall i: nat, j: nat :: Delivered(t, i, a) && Delivered(t, j, a) ==> i == j)
      && (forall w, i: nat :: InFlight(t, w, a) && Delivered(t, i, a) ==> false)
  }

  ghost predicate Fine(env: Env, s: System, id: string) {
    Sure(env, s) && Accounted(env, s, id) && UsedOnce(env, s.table, id)
  }

  ghost predicate Removes(act: Act, id: string) {
    act.Stored? && T.Removes(act.change, id)
  }

  lemma QuietStep(t: Table, step: RoundStep)
    requires !step.Verify? && !step.Consume?
    ensures var u := ApprovalRounds.Next(KeepsSpent, t, step);
      && u.delivered == t.delivered
      && (forall who, a :: InFlight(u, who, a) <==> InFlight(t, who, a))
      && (forall who :: who in u.flights && u.flights[who].verified.Some? ==>
          who in t.flights && u.flights[who] == t.flights[who])
  {
  }

  lemma QuietSure(env: Env, s: System, step: RoundStep)
    requires Sure(env, s) && !step.Verify? && !step.Consume?
    ensures Sure(env, s.(table := ApprovalRounds.Next(KeepsSpent, s.table, step)))
  {
    QuietStep(s.table, step);
    NextInv(KeepsSpent, s.table, step);
  }

  lemma QuietFine(env: Env, s: System, step: RoundStep, id: string)
    requires Fine(env, s, id) && !step.Verify? && !step.Consume?
    ensures Fine(env, s.(table := ApprovalRounds.Next(KeepsSpent, s.table, step)), id)
  {
    var u := ApprovalRounds.Next(KeepsSpent, s.table, step);
    QuietSure(env, s, step);
    QuietStep(s.table, step);
    forall i: nat, a ensures Delivered(u, i, a) <==> Delivered(s.table, i, a) {}
  }

  lemma ConsumeForm(t: Table, who: nat)
    ensures var u := ConsumeRound(KeepsSpent, t, who);
      && (forall w, a :: InFlight(u, w, a) ==> InFlight(t, w, a) && w != who)
      && (u.delivered == t.delivered
          || (Takes(t, who)
              && var f := t.flights[who];
              u.delivered == t.delivered
                + [Delivery(t.rounds[f.request].waiter, f.request, f.challenge, f.verified.value)]))
      && (forall w :: w in u.flights ==> w in t.flights && u.flights[w] == t.flights[w])
  {
  }

  lemma ConsumeUsed(env: Env, t: Table, who: nat, id: string)
    requires UsedOnce(env, t, id)
    ensures UsedOnce(env, ConsumeRound(KeepsSpent, t, who), id)
  {
    var u := ConsumeRound(KeepsSpent, t, who);
    ConsumeForm(t, who);
    var n := |t.delivered|;
    forall a: Assertion | a.credentialId == id && T.CounterOf(env, a) > 0
      ensures forall v, w :: InFlight(u, v, a) && InFlight(u, w, a) ==> v == w
      ensures forall i: nat, j: nat :: Delivered(u, i, a) && Delivered(u, j, a) ==> i == j
      ensures forall w, i: nat :: InFlight(u, w, a) && Delivered(u, i, a) ==> false
    {
      assert forall i: nat :: i < n && Delivered(u, i, a) ==> Delivered(t, i, a);
      assert Delivered(u, n, a) ==> InFlight(t, who, a);
    }
  }

  lemma ConsumeSure(env: Env, s: System, who: nat)
    requires Sure(env, s)
    ensures Sure(env, s.(table := ConsumeRound(KeepsSpent, s.table, who)))
  {
    var t, u := s.table, ConsumeRound(KeepsSpent, s.table, who);
    ConsumeForm(t, who);
    ConsumeInv(KeepsSpent, t, who);
    forall i | 0 <= i < |u.delivered| ensures Names(env, u.delivered[i].response, u.delivered[i].challenge) {
      if i < |t.delivered| { assert u.delivered[i] == t.delivered[i]; }
    }
  }

  lemma ConsumeFine(env: Env, s: System, who: nat, id: string)
    requires Fine(env, s, id)
    ensures Fine(env, s.(table := ConsumeRound(KeepsSpent, s.table, who)), id)
  {
    var t, u := s.table, ConsumeRound(KeepsSpent, s.table, who);
    ConsumeForm(t, who);
    ConsumeSure(env, s, who);
    ConsumeUsed(env, t, who, id);
    forall i: nat, a | Delivered(u, i, a) && a.credentialId == id ensures Counted(env, s.store, a) {
      if i < |t.delivered| { assert Delivered(t, i, a); } else { assert InFlight(t, who, a); }
    }
  }

  // ------------------------------------------------------------------ answers

  lemma CountedStays(env: Env, store: Store, step: Fido2.Step, a: Assertion)
    requires Counted(env, store, a) && !T.Removes(step, a.credentialId)
    ensures Counted(env, Fido2.Next(env, store, step).0, a)
  {
    var i :| 0 <= i < |store| && store[i].credentialId == a.credentialId && store[i].counter >= T.CounterOf(env, a);
    T.NextKeeps(env, store, step, a.credentialId);
    var after := Fido2.Next(env, store, step).0;
    var j :| 0 <= j < |after| && T.Kept(store[i], after[j]);
  }

  /** A counted assertion with a positive counter cannot be accepted again. */
  lemma NotAgain(env: Env, store: Store, a: Assertion, challenge: string)
    requires T.Distinct(store) && Counted(env, store, a) && T.CounterOf(env, a) > 0
    ensures Commit(env, store, a, challenge, Possession).1.Err?
  {
    var i :| 0 <= i < |store| && store[i].credentialId == a.credentialId && store[i].counter >= T.CounterOf(env, a);
    if T.Accepts(env, store, DoCommit(a, challenge, Possession), a.credentialId) {
      T.AcceptedBeats(env, store, DoCommit(a, challenge, Possession), a.credentialId, i);
    }
  }

  lemma AcceptedCounted(env: Env, store: Store, a: Assertion, challenge: string)
    requires Commit(env, store, a, challenge, Possession).1.Ok?
    ensures Counted(env, Commit(env, store, a, challenge, Possession).0, a) && Names(env, a, challenge)
  {
    T.AcceptedCounter(env, store, DoCommit(a, challenge, Possession), a.credentialId);
    T.AcceptedAnswers(env, store, DoCommit(a, challenge, Possession), a.credentialId);
  }

  lemma AnswerForm(t: Table, who: nat, a: Assertion, accepted: bool)
    requires Waiting(t, who)
    ensures var u := VerifyResponse(t, who, a, accepted);
      && u.delivered == t.delivered
      && (forall w, b :: InFlight(u, w, b) <==> InFlight(t, w, b) || (accepted && w == who && b == a))
      && (forall w :: w in u.flights && w != who ==> w in t.flights && u.flights[w] == t.flights[w])
      && (accepted ==> who in u.flights && u.flights[who] == t.flights[who].(verified := Some(a)))
      && (!accepted ==> who !in u.flights)
  {
  }

  lemma AnswerUsed(env: Env, t: Table, who: nat, a: Assertion, accepted: bool, id: string)
    requires UsedOnce(env, t, id) && Waiting(t, who)
    requires accepted && a.credentialId == id && T.CounterOf(env, a) > 0 ==>
      (forall w :: !InFlight(t, w, a)) && (forall i: nat :: !Delivered(t, i, a))
    ensures UsedOnce(env, VerifyResponse(t, who, a, accepted), id)
  {
    AnswerForm(t, who, a, accepted);
    var u := VerifyResponse(t, who, a, accepted);
    forall b, i: nat ensures Delivered(u, i, b) <==> Delivered(t, i, b) {}
  }

  lemma AnswerAccounted(env: Env, s: System, who: nat, a: Assertion, store: Store, accepted: bool, id: string)
    requires Accounted(env, s, id) && Waiting(s.table, who)
    requires forall b :: Counted(env, s.store, b) ==> Counted(env, store, b)
    requires accepted ==> Counted(env, store, a)
    ensures Accounted(env, System(VerifyResponse(s.table, who, a, accepted), store), id)
  {
    AnswerForm(s.table, who, a, accepted);
    var u := VerifyResponse(s.table, who, a, accepted);
    forall i: nat, b | Delivered(u, i, b) && b.credentialId == id ensures Counted(env, store, b) {
      assert Delivered(s.table, i, b);
    }
  }

  lemma AnswerNames(env: Env, t: Table, who: nat, a: Assertion, accepted: bool)
    requires Answers(env, t) && Waiting(t, who) && (accepted ==> Names(env, a, t.flights[who].challenge))
    ensures Answers(env, VerifyResponse(t, who, a, accepted))
  {
    AnswerForm(t, who, a, accepted);
  }

  lemma AnswerSure(env: Env, s: System, who: nat, a: Assertion)
    requires Sure(env, s) && Waiting(s.table, who)
    ensures Sure(env, Act1(env, s, Answer(who, a)))
  {
    var challenge := s.table.flights[who].challenge;
    var (store, r) := Commit(env, s.store, a, challenge, Possession);
    T.NextDistinct(env, s.store, DoCommit(a, challenge, Possession));
    NextInv(KeepsSpent, s.table, Verify(who, a, r.Ok?));
    if r.Ok? { AcceptedCounted(env, s.store, a, challenge); }
    AnswerNames(env, s.table, who, a, r.Ok?);
  }

  lemma AnswerFine(env: Env, s: System, who: nat, a: Assertion, id: string)
    requires Fine(env, s, id) && Waiting(s.table, who)
    ensures Fine(env, Act1(env, s, Answer(who, a)), id)
  {
    var challenge := s.table.flights[who].challenge;
    var step := DoCommit(a, challenge, Possession);
    var (store, r) := Commit(env, s.store, a, challenge, Possession);
    AnswerSure(env, s, who, a);
    forall b | Counted(env, s.store, b) ensures Counted(env, store, b) { CountedStays(env, s.store, step, b); }
    if r.Ok? {
      AcceptedCounted(env, s.store, a, challenge);
      if T.CounterOf(env, a) > 0 && Counted(env, s.store, a) { NotAgain(env, s.store, a, challenge); }
    }
    AnswerAccounted(env, s, who, a, store, r.Ok?, id);
    AnswerUsed(env, s.table, who, a, r.Ok?, id);
  }

  lemma ActSure(env: Env, s: System, act: Act)
    requires Sure(env, s)
    ensures Sure(env, Act1(env, s, act))
  {
    match act
    case Rounds(step) =>
      if step.Consume? { ConsumeSure(env, s, step.who); } else if !step.Verify? { QuietSure(env, s, step); }
    case Answer(who, a) => if Waiting(s.table, who) { AnswerSure(env, s, who, a); }
    case Stored(change) => T.NextDistinct(env, s.store, change);
  }

  lemma ActFine(env: Env, s: System, act: Act, id: string)
    requires Fine(env, s, id) && !Removes(act, id)
    ensures Fine(env, Act1(env, s, act), id)
  {
    match act
    case Rounds(step) =>
      if step.Consume? { ConsumeFine(env, s, step.who, id); } else if !step.Verify? { QuietFine(env, s, step, id); }
    case Answer(who, a) => if Waiting(s.table, who) { AnswerFine(env, s, who, a, id); }
    case Stored(change) =>
      T.NextDistinct(env, s.store, change);
      forall b | Counted(env, s.store, b) && b.credentialId == id
        ensures Counted(env, Fido2.Next(env, s.store, change).0, b)
      {
        CountedStays(env, s.store, change, b);
      }
  }

  lemma {:induction false} ActsSure(env: Env, acts: seq<Act>)
    ensures Sure(env, Acts(env, START, acts))
    decreases |acts|
  {
    if acts != [] {
      ActsSure(env, acts[..|acts| - 1]);
      ActSure(env, Acts(env, START, acts[..|acts| - 1]), acts[|acts| - 1]);
    }
  }

  ghost predicate StaysRegistered(acts: seq<Act>, id: string) {
    forall k :: 0 <= k < |acts| ==> !Removes(acts[k], id)
  }

  lemma {:induction false} ActsFine(env: Env, acts: seq<Act>, id: string)
    requires StaysRegistered(acts, id)
    ensures Fine(env, Acts(env, START, acts), id)
    decreases |acts|
  {
    if acts != [] {
      ActsFine(env, acts[..|acts| - 1], id);
      ActFine(env, Acts(env, START, acts[..|acts| - 1]), acts[|acts| - 1], id);
    }
  }

  // ------------------------------------------------------------------ end to end

  /**
   * Whatever responders race, and whatever else the store is asked for meanwhile, with request ids used
   * once: every waiter is answered at most once, and the assertion it receives was signed for that
   * waiter's own challenge.
   */
  lemma ApprovedByOwnChallenge(env: Env, acts: seq<Act>, i: nat, j: nat)
    requires var t := Acts(env, START, acts).table; i < |t.delivered| && j < |t.delivered| && FreshRequests(t)
    ensures var t := Acts(env, START, acts).table; var d := t.delivered[i];
      && (i != j ==> d.waiter != t.delivered[j].waiter)
      && d.waiter < |t.begun| && Names(env, d.response, t.begun[d.waiter].challenge)
  {
    ActsSure(env, acts);
    var t := Acts(env, START, acts).table;
    var d := t.delivered[i];
    assert DeliveryFits(t, d);
    var k :| 0 <= k < |t.begun| && t.begun[k] == Begun(d.request, d.challenge);
    if i < j { assert t.delivered[i].waiter != t.delivered[j].waiter; }
    if j < i { assert t.delivered[j].waiter != t.delivered[i].waiter; }
  }

  /**
   * One touch approves at most one waiter, whether or not the authenticator counts: with request ids and
   * challenges used once, no response is delivered twice.
   */
  lemma OneTouchOneApproval(env: Env, acts: seq<Act>, i: nat, j: nat)
    requires var t := Acts(env, START, acts).table; i < |t.delivered| && j < |t.delivered| && i != j
    requires var t := Acts(env, START, acts).table; FreshRequests(t) && FreshChallenges(t)
    ensures var t := Acts(env, START, acts).table; t.delivered[i].response != t.delivered[j].response
  {
    ApprovedByOwnChallenge(env, acts, i, j);
    ApprovedByOwnChallenge(env, acts, j, i);
  }

  /**
   * What is left when ids or challenges repeat: a response delivered twice was delivered for one challenge
   * both times, and its authenticator does not count or was removed from the store.
   */
  lemma RepeatedApproval(env: Env, acts: seq<Act>, i: nat, j: nat)
    requires var t := Acts(env, START, acts).table;
      i < |t.delivered| && j < |t.delivered| && i != j && t.delivered[i].response == t.delivered[j].response
    ensures var t := Acts(env, START, acts).table; var a := t.delivered[i].response;
      && t.delivered[i].challenge == t.delivered[j].challenge
      && (T.CounterOf(env, a) == 0 || !StaysRegistered(acts, a.credentialId))
  {
    ActsSure(env, acts);
    var t := Acts(env, START, acts).table;
    var a := t.delivered[i].response;
    assert Names(env, t.delivered[i].response, t.delivered[i].challenge);
    assert Names(env, t.delivered[j].response, t.delivered[j].challenge);
    if StaysRegistered(acts, a.credentialId) {
      ActsFine(env, acts, a.credentialId);
      assert Delivered(t, i, a) && Delivered(t, j, a);
    }
  }

  const TOUCH := Assertion("key", "", "", "")

  /** One responder takes an open round all the way with `TOUCH`. */
  function Approval(who: nat, request: string): seq<Act> {
    [Rounds(Look(who, request, 0)), Answer(who, TOUCH), Rounds(Consume(who))]
  }

  lemma {:induction false} ActsAppend(env: Env, s: System, a: seq<Act>, b: seq<Act>)
    ensures Acts(env, s, a + b) == Acts(env, Acts(env, s, a), b)
    decreases |b|
  {
    if b == [] {
      assert a + b == a;
    } else {
      var n := |b| - 1;
      ActsAppend(env, s, a, b[..n]);
      assert (a + b)[..|a + b| - 1] == a + b[..n];
    }
  }

  lemma ThreeActs(env: Env, s: System, a: Act, b: Act, c: Act)
    ensures Acts(env, s, [a, b, c]) == Act1(env, Act1(env, Act1(env, s, a), b), c)
  {
    assert [a, b, c][..2] == [a, b] && [a, b][..1] == [a] && [a][..0] == [];
    assert Acts(env, s, [a]) == Act1(env, s, a);
  }

  lemma UncountedAnswer(s: System, who: nat, request: string)
    requires s.store == [Credential("key", "", 0, 0, "", None)] && who !in s.table.flights
    requires Open(s.table, request, 0) && s.table.rounds[request].armed
      && s.table.rounds[request].challenge == "challenge"
    ensures var u := Acts(T.UNCOUNTED, s, Approval(who, request));
      && u.store == s.store && u.table.flights == s.table.flights && u.table.begun == s.table.begun
      && u.table.rounds == s.table.rounds[request := s.table.rounds[request].(armed := false)]
      && u.table.delivered ==
         s.table.delivered + [Delivery(s.table.rounds[request].waiter, request, "challenge", TOUCH)]
  {
    var acts := Approval(who, request);
    var s1 := Act1(T.UNCOUNTED, s, acts[0]);
    var s2 := Act1(T.UNCOUNTED, s1, acts[1]);
    T.UncountedRepeats();
    assert Commit(T.UNCOUNTED, s.store, TOUCH, "challenge", Possession) == (s.store, Ok(s.store[0]));
    assert s2.table.flights == s.table.flights[who := Flight(request, "challenge", Some(TOUCH))];
    ThreeActs(T.UNCOUNTED, s, acts[0], acts[1], acts[2]);
  }

  const BEGINNING: seq<Act> := [
    Stored(DoRegister(Registration("key", "", 0, ""), "", 0)),
    Rounds(Begin("a", "challenge", 1)), Rounds(Begin("b", "challenge", 1))]

  lemma TwoRounds()
    ensures Acts(T.UNCOUNTED, START, BEGINNING) == System(
      ApprovalRounds.Table(
        map["a" := Round("challenge", 0, 1, true), "b" := Round("challenge", 1, 1, true)],
        map[], [], [Begun("a", "challenge"), Begun("b", "challenge")]),
      [Credential("key", "", 0, 0, "", None)])
  {
    var s1 := Act1(T.UNCOUNTED, START, BEGINNING[0]);
    var s2 := Act1(T.UNCOUNTED, s1, BEGINNING[1]);
    assert Parse(T.AUTHENTICATOR_DATA).value.flags == 1;
    assert s1.store == [Credential("key", "", 0, 0, "", None)];
    ThreeActs(T.UNCOUNTED, START, BEGINNING[0], BEGINNING[1], BEGINNING[2]);
  }

  /** The condition on challenges is needed: two rounds given one challenge share one uncounted touch. */
  lemma SharedChallenge()
    ensures var t := Acts(T.UNCOUNTED, START, BEGINNING + Approval(0, "a") + Approval(1, "b")).table;
      FreshRequests(t) && |t.delivered| == 2 && t.delivered[0].response == t.delivered[1].response
  {
    ActsAppend(T.UNCOUNTED, START, BEGINNING, Approval(0, "a"));
    ActsAppend(T.UNCOUNTED, START, BEGINNING + Approval(0, "a"), Approval(1, "b"));
    TwoRounds();
    BothAnswered(Acts(T.UNCOUNTED, START, BEGINNING));
  }

  lemma BothAnswered(s: System)
    requires s.store == [Credential("key", "", 0, 0, "", None)] && s.table.flights == map[] && s.table.delivered == []
    requires s.table.rounds == map["a" := Round("challenge", 0, 1, true), "b" := Round("challenge", 1, 1, true)]
    ensures var t := Acts(T.UNCOUNTED, Acts(T.UNCOUNTED, s, Approval(0, "a")), Approval(1, "b")).table;
      t.begun == s.table.begun && |t.delivered| == 2 && t.delivered[0].response == t.delivered[1].response
  {
    UncountedAnswer(s, 0, "a");
    UncountedAnswer(Acts(T.UNCOUNTED, s, Approval(0, "a")), 1, "b");
  }
}
