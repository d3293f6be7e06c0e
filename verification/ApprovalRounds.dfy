/**
 * Approval rounds: a waiter parks under a request id, responders look up its challenge, verify a
 * response without holding the table, and only then consume the round. Two servers share this
 * protocol; they differ in what consuming leaves behind.
 */
module ApprovalRounds {
  import opened Wrappers

  /** The FIDO2 table keeps a spent round until it ends; the device server removes it. */
  datatype Style = KeepsSpent | RemovesSpent

  datatype Round = Round(challenge: string, waiter: nat, deadline: int, armed: bool)

  /** A responder between its lookup and its answer. */
  datatype Flight<R> = Flight(request: string, challenge: string, verified: Option<R>)

  datatype Delivery<R> = Delivery(waiter: nat, request: string, challenge: string, response: R)

  datatype Begun = Begun(request: string, challenge: string)

  /** `begun` lists the waiters in the order their channels were made; it is history, not a table. */
  datatype Table<R> = Table(
    rounds: map<string, Round>, flights: map<nat, Flight<R>>, delivered: seq<Delivery<R>>, begun: seq<Begun>)

  function Empty<R>(): Table<R> {
    Table(map[], map[], [], [])
  }

  datatype Step<R> =
    | Begin(request: string, challenge: string, deadline: int)
    | Look(who: nat, request: string, now: int)
    | Verify(who: nat, response: R, accepted: bool)
    | Consume(who: nat)
    | End(request: string)
    | Expire(now: int)

  function BeginRound<R>(t: Table<R>, request: string, challenge: string, deadline: int): Table<R> {
    t.(rounds := t.rounds[request := Round(challenge, |t.begun|, deadline, true)],
       begun := t.begun + [Begun(request, challenge)])
  }

  predicate Open<R>(t: Table<R>, request: string, now: int) {
    request in t.rounds && now <= t.rounds[request].deadline
  }

  /** A spent round is still found by the FIDO2 table: only taking its channel fails. */
  function LookUp<R>(t: Table<R>, who: nat, request: string, now: int): Table<R> {
    if who in t.flights || !Open(t, request, now) then t
    else t.(flights := t.flights[who := Flight(request, t.rounds[request].challenge, None)])
  }

  /** Verification happens outside the table; a rejected response ends the responder's call. */
  function VerifyResponse<R>(t: Table<R>, who: nat, response: R, accepted: bool): Table<R> {
    if who !in t.flights || t.flights[who].verified.Some? then t
    else if accepted then t.(flights := t.flights[who := t.flights[who].(verified := Some(response))])
    else t.(flights := t.flights - {who})
  }

  predicate Takes<R>(t: Table<R>, who: nat) {
    && who in t.flights && t.flights[who].verified.Some?
    && t.flights[who].request in t.rounds && t.rounds[t.flights[who].request].armed
  }

  function ConsumeRound<R>(style: Style, t: Table<R>, who: nat): Table<R> {
    if who !in t.flights || t.flights[who].verified.None? then t
    else if !Takes(t, who) then t.(flights := t.flights - {who})
    else
      var f := t.flights[who];
      var round := t.rounds[f.request];
      Table(if style.KeepsSpent? then t.rounds[f.request := round.(armed := false)] else t.rounds - {f.request},
            t.flights - {who},
            t.delivered + [Delivery(round.waiter, f.request, f.challenge, f.verified.value)],
            t.begun)
  }

  function ExpireRounds<R>(t: Table<R>, now: int): Table<R> {
    t.(rounds := map q | q in t.rounds && now <= t.rounds[q].deadline :: t.rounds[q])
  }

  function Next<R>(style: Style, t: Table<R>, step: Step<R>): Table<R> {
    match step
    case Begin(request, challenge, deadline) => BeginRound(t, request, challenge, deadline)
    case Look(who, request, now) => LookUp(t, who, request, now)
    case Verify(who, response, accepted) => VerifyResponse(t, who, response, accepted)
    case Consume(who) => ConsumeRound(style, t, who)
    case End(request) => t.(rounds := t.rounds - {request})
    case Expire(now) => ExpireRounds(t, now)
  }

  function Run<R>(style: Style, t: Table<R>, steps: seq<Step<R>>): Table<R>
    decreases |steps|
  {
    if steps == [] then t else Next(style, Run(style, t, steps[..|steps| - 1]), steps[|steps| - 1])
  }

  // ------------------------------------------------------------------ what every step keeps

  ghost predicate RoundFits<R>(t: Table<R>, q: string)
    requires q in t.rounds
  {
    t.rounds[q].waiter < |t.begun| && t.begun[t.rounds[q].waiter] == Begun(q, t.rounds[q].challenge)
  }

  /** A responder's challenge was issued for the request it answers. */
  ghost predicate FlightFits<R>(t: Table<R>, who: nat)
    requires who in t.flights
  {
    Begun(t.flights[who].request, t.flights[who].challenge) in t.begun
  }

  ghost predicate DeliveryFits<R>(t: Table<R>, d: Delivery<R>) {
    && d.waiter < |t.begun| && t.begun[d.waiter].request == d.request
    && Begun(d.request, d.challenge) in t.begun
    && (d.request in t.rounds && t.rounds[d.request].waiter == d.waiter ==> !t.rounds[d.request].armed)
  }

  ghost predicate Inv<R>(t: Table<R>) {
    && (forall q :: q in t.rounds ==> RoundFits(t, q))
    && (forall who :: who in t.flights ==> FlightFits(t, who))
    && (forall i :: 0 <= i < |t.delivered| ==> DeliveryFits(t, t.delivered[i]))
    && (forall i, j :: 0 <= i < j < |t.delivered| ==> t.delivered[i].waiter != t.delivered[j].waiter)
  }

  lemma BeginInv<R>(t: Table<R>, request: string, challenge: string, deadline: int)
    requires Inv(t)
    ensures Inv(BeginRound(t, request, challenge, deadline))
  {
    var u := BeginRound(t, request, challenge, deadline);
    assert forall b :: b in t.begun ==> b in u.begun;
    forall i | 0 <= i < |u.delivered| ensures DeliveryFits(u, u.delivered[i]) {
      assert DeliveryFits(t, t.delivered[i]);
    }
  }

  lemma ConsumeInv<R>(style: Style, t: Table<R>, who: nat)
    requires Inv(t)
    ensures Inv(ConsumeRound(style, t, who))
  {
    var u := ConsumeRound(style, t, who);
    if Takes(t, who) {
      assert FlightFits(t, who) && RoundFits(t, t.flights[who].request);
      var n := |t.delivered|;
      forall i | 0 <= i < n
        ensures DeliveryFits(u, u.delivered[i]) && t.delivered[i].waiter != t.rounds[t.flights[who].request].waiter
      {
        assert u.delivered[i] == t.delivered[i];
        assert DeliveryFits(t, t.delivered[i]);
      }
      assert DeliveryFits(u, u.delivered[n]);
    }
  }

  lemma ShrinkInv<R>(t: Table<R>, rounds: map<string, Round>)
    requires Inv(t) && forall q :: q in rounds ==> q in t.rounds && rounds[q] == t.rounds[q]
    ensures Inv(t.(rounds := rounds))
  {
    var u := t.(rounds := rounds);
    forall q | q in rounds ensures RoundFits(u, q) { assert RoundFits(t, q); }
    forall i | 0 <= i < |u.delivered|
      ensures DeliveryFits(u, u.delivered[i])
    {
      assert DeliveryFits(t, t.delivered[i]);
    }
  }

  lemma FlightsInv<R>(t: Table<R>, flights: map<nat, Flight<R>>)
    requires Inv(t) && forall who :: who in flights ==> Begun(flights[who].request, flights[who].challenge) in t.begun
    ensures Inv(t.(flights := flights))
  {
    var u := t.(flights := flights);
    forall i | 0 <= i < |u.delivered|
      ensures DeliveryFits(u, u.delivered[i])
    {
      assert DeliveryFits(t, t.delivered[i]);
    }
    forall q | q in u.rounds ensures RoundFits(u, q) { assert RoundFits(t, q); }
  }

  lemma NextInv<R>(style: Style, t: Table<R>, step: Step<R>)
    requires Inv(t)
    ensures Inv(Next(style, t, step))
  {
    match step
    case Begin(request, challenge, deadline) => BeginInv(t, request, challenge, deadline);
    case Look(who, request, now) =>
      if Open(t, request, now) { assert RoundFits(t, request); }
      LookFits(t, who, request, now);
      FlightsInv(t, LookUp(t, who, request, now).flights);
    case Verify(who, response, accepted) =>
      VerifyFits(t, who, response, accepted);
      FlightsInv(t, VerifyResponse(t, who, response, accepted).flights);
    case Consume(who) => ConsumeInv(style, t, who);
    case End(request) => ShrinkInv(t, t.rounds - {request});
    case Expire(now) => ShrinkInv(t, ExpireRounds(t, now).rounds);
  }

  lemma LookFits<R>(t: Table<R>, who: nat, request: string, now: int)
    requires Inv(t)
    ensures forall w :: w in LookUp(t, who, request, now).flights ==>
      Begun(LookUp(t, who, request, now).flights[w].request,
            LookUp(t, who, request, now).flights[w].challenge) in t.begun
  {
    var flights := LookUp(t, who, request, now).flights;
    forall w | w in flights ensures Begun(flights[w].request, flights[w].challenge) in t.begun {
      if w in t.flights && flights[w] == t.flights[w] {
        assert FlightFits(t, w);
      } else {
        assert RoundFits(t, request);
      }
    }
  }

  lemma VerifyFits<R>(t: Table<R>, who: nat, response: R, accepted: bool)
    requires Inv(t)
    ensures forall w :: w in VerifyResponse(t, who, response, accepted).flights ==>
      Begun(VerifyResponse(t, who, response, accepted).flights[w].request,
            VerifyResponse(t, who, response, accepted).flights[w].challenge) in t.begun
  {
    var flights := VerifyResponse(t, who, response, accepted).flights;
    forall w | w in flights ensures Begun(flights[w].request, flights[w].challenge) in t.begun {
      assert FlightFits(t, w);
    }
  }

  lemma {:induction false} RunInv<R>(style: Style, t: Table<R>, steps: seq<Step<R>>)
    requires Inv(t)
    ensures Inv(Run(style, t, steps))
    decreases |steps|
  {
    if steps != [] {
      RunInv(style, t, steps[..|steps| - 1]);
      NextInv(style, Run(style, t, steps[..|steps| - 1]), steps[|steps| - 1]);
    }
  }

  // ------------------------------------------------------------------ what a waiter receives

  /** Over every run and in both styles, no waiter is answered twice. */
  lemma AnsweredOnce<R>(style: Style, steps: seq<Step<R>>, i: nat, j: nat)
    requires i < j < |Run(style, Empty(), steps).delivered|
    ensures Run(style, Empty(), steps).delivered[i].waiter != Run(style, Empty(), steps).delivered[j].waiter
  {
    RunInv(style, Empty(), steps);
  }

  ghost predicate FreshRequests<R>(t: Table<R>) {
    forall i, j :: 0 <= i < j < |t.begun| ==> t.begun[i].request != t.begun[j].request
  }

  /** If no request id was used for two rounds, every answer was verified against the waiter's own challenge. */
  lemma AnswersOwnChallenge<R>(style: Style, steps: seq<Step<R>>, i: nat)
    requires i < |Run(style, Empty(), steps).delivered| && FreshRequests(Run(style, Empty(), steps))
    ensures var t := Run(style, Empty(), steps); var d := t.delivered[i];
      d.waiter < |t.begun| && t.begun[d.waiter] == Begun(d.request, d.challenge)
  {
    RunInv(style, Empty(), steps);
    var t := Run(style, Empty(), steps);
    var d := t.delivered[i];
    assert DeliveryFits(t, d);
    var k :| 0 <= k < |t.begun| && t.begun[k] == Begun(d.request, d.challenge);
  }

  lemma RunThen<R>(style: Style, steps: seq<Step<R>>, step: Step<R>)
    ensures Run(style, Empty(), steps + [step]) == Next(style, Run(style, Empty(), steps), step)
  {
    assert (steps + [step])[..|steps|] == steps;
  }

  /** A request id reused while a responder is between lookup and answer breaks that link. */
  lemma ReusedRequest(style: Style)
    ensures var steps :=
      [Begin("q", "one", 9), Look(0, "q", 0), Begin("q", "two", 9), Verify(0, "yes", true), Consume(0)];
      Run(style, Empty(), steps).delivered == [Delivery(1, "q", "one", "yes")] &&
      Run(style, Empty(), steps).begun == [Begun("q", "one"), Begun("q", "two")]
  {
    var s1: seq<Step<string>> := [Begin("q", "one", 9)];
    var s2 := s1 + [Look(0, "q", 0)];
    var s3 := s2 + [Begin("q", "two", 9)];
    var s4 := s3 + [Verify(0, "yes", true)];
    assert s1[..0] == [];
    RunThen(style, s1, Look(0, "q", 0));
    var t2 := Table(map["q" := Round("one", 0, 9, true)], map[0 := Flight("q", "one", None)], [], [Begun("q", "one")]);
    assert Run(style, Empty(), s2) == t2;
    RunThen(style, s2, Begin("q", "two", 9));
    RunThen(style, s3, Verify(0, "yes", true));
    RunThen(style, s4, Consume(0));
    assert s4 + [Consume(0)]
        == [Begin("q", "one", 9), Look(0, "q", 0), Begin("q", "two", 9), Verify(0, "yes", true), Consume(0)];
  }

  ghost predicate Restarts<R>(steps: seq<Step<R>>, request: string) {
    exists k :: 0 <= k < |steps| && steps[k].Begin? && steps[k].request == request
  }

  ghost predicate FreshChallenges<R>(t: Table<R>) {
    forall i, j :: 0 <= i < j < |t.begun| ==> t.begun[i].challenge != t.begun[j].challenge
  }

  /** The responder's call is the same one throughout. */
  ghost predicate Stays<R>(style: Style, t: Table<R>, steps: seq<Step<R>>, who: nat) {
    forall k :: 0 <= k <= |steps| ==> who in Run(style, t, steps[..k]).flights
  }

  lemma {:induction false} FlightSince<R>(style: Style, t: Table<R>, steps: seq<Step<R>>, who: nat)
    requires Stays(style, t, steps, who)
    ensures who in t.flights && who in Run(style, t, steps).flights
    ensures Run(style, t, steps).flights[who].request == t.flights[who].request
    ensures Run(style, t, steps).flights[who].challenge == t.flights[who].challenge
    decreases |steps|
  {
    assert steps[..0] == [] && steps[..|steps|] == steps;
    if steps != [] {
      var n := |steps| - 1;
      forall k | 0 <= k <= n ensures who in Run(style, t, steps[..n][..k]).flights {
        assert steps[..n][..k] == steps[..k];
      }
      FlightSince(style, t, steps[..n], who);
    }
  }

  /** A round found later is the old one, unless its request was begun again meanwhile. */
  lemma {:induction false} RoundSince<R>(style: Style, t: Table<R>, steps: seq<Step<R>>, q: string)
    requires q in Run(style, t, steps).rounds
    ensures t.begun <= Run(style, t, steps).begun
    ensures !Restarts(steps, q) ==> q in t.rounds && Run(style, t, steps).rounds[q].challenge == t.rounds[q].challenge
    ensures Restarts(steps, q) ==> |t.begun| <= Run(style, t, steps).rounds[q].waiter
    decreases |steps|
  {
    if steps != [] {
      var n := |steps| - 1;
      BegunGrows(style, t, steps[..n]);
      RestartsLast(steps, q);
      if !(steps[n].Begin? && steps[n].request == q) { RoundSince(style, t, steps[..n], q); }
    }
  }

  lemma RestartsLast<R>(steps: seq<Step<R>>, q: string)
    requires |steps| > 0
    ensures Restarts(steps, q) <==>
      Restarts(steps[..|steps| - 1], q) || (steps[|steps| - 1].Begin? && steps[|steps| - 1].request == q)
  {
    var n := |steps| - 1;
    if Restarts(steps[..n], q) {
      var k :| 0 <= k < n && steps[..n][k].Begin? && steps[..n][k].request == q;
      assert steps[k].Begin? && steps[k].request == q;
    }
    if Restarts(steps, q) {
      var k :| 0 <= k < |steps| && steps[k].Begin? && steps[k].request == q;
      if k < n { assert steps[..n][k].Begin? && steps[..n][k].request == q; }
    }
  }

  lemma {:induction false} BegunGrows<R>(style: Style, t: Table<R>, steps: seq<Step<R>>)
    ensures t.begun <= Run(style, t, steps).begun
    decreases |steps|
  {
    if steps != [] { BegunGrows(style, t, steps[..|steps| - 1]); }
  }

  /**
   * Exactly when an answer matches its waiter: with challenges never issued twice, a responder that
   * looked up a round and now takes it answers the waiter's own challenge if and only if that
   * request was not begun again in between.
   */
  lemma MatchesUnlessRestarted<R>(style: Style, t: Table<R>, steps: seq<Step<R>>, who: nat)
    requires Inv(t) && Stays(style, t, steps, who) && FreshChallenges(Run(style, t, steps))
    requires who in t.flights && t.flights[who].request in t.rounds
    requires t.rounds[t.flights[who].request].challenge == t.flights[who].challenge
    requires Takes(Run(style, t, steps), who)
    ensures var u := Run(style, t, steps); var d := ConsumeRound(style, u, who).delivered[|u.delivered|];
      && d.waiter < |u.begun|
      && (u.begun[d.waiter] == Begun(d.request, d.challenge) <==> !Restarts(steps, t.flights[who].request))
  {
    var u := Run(style, t, steps);
    var q := t.flights[who].request;
    FlightSince(style, t, steps, who);
    RunInv(style, t, steps);
    RoundSince(style, t, steps, q);
    assert RoundFits(t, q) && RoundFits(u, q);
    assert u.begun[t.rounds[q].waiter] == t.begun[t.rounds[q].waiter];
  }

  // ------------------------------------------------------------------ rounds that stay open

  /** This step does not begin, end, expire or consume the round of this request. */
  ghost predicate Spares<R>(t: Table<R>, step: Step<R>, request: string) {
    match step
    case Begin(q, _, _) => q != request
    case End(q) => q != request
    case Expire(now) => request in t.rounds ==> now <= t.rounds[request].deadline
    case Consume(who) => Takes(t, who) ==> t.flights[who].request != request
    case Look(_, _, _) => true
    case Verify(_, _, _) => true
  }

  /** Every step of the run spares it, from the table that step finds. */
  ghost predicate AllSpare<R>(style: Style, t: Table<R>, steps: seq<Step<R>>, request: string)
    decreases |steps|
  {
    var n := |steps| - 1;
    steps == []
    || (AllSpare(style, t, steps[..n], request) && Spares(Run(style, t, steps[..n]), steps[n], request))
  }

  /** The request's round is this waiter's and unspent. */
  ghost predicate Parked<R>(t: Table<R>, request: string, waiter: nat) {
    request in t.rounds && t.rounds[request].waiter == waiter && t.rounds[request].armed
  }

  lemma SparedNext<R>(style: Style, t: Table<R>, step: Step<R>, request: string, waiter: nat)
    requires waiter < |t.begun|
    ensures waiter < |Next(style, t, step).begun|
    ensures Parked(Next(style, t, step), request, waiter) <==> Parked(t, request, waiter) && Spares(t, step, request)
    ensures Parked(Next(style, t, step), request, waiter) ==>
      Next(style, t, step).rounds[request] == t.rounds[request]
  {
    match step
    case Begin(q, _, _) =>
    case End(q) =>
    case Expire(now) =>
    case Consume(who) =>
    case Look(_, _, _) =>
    case Verify(_, _, _) =>
  }

  lemma {:induction false} SparedRun<R>(style: Style, t: Table<R>, steps: seq<Step<R>>, request: string, waiter: nat)
    requires Parked(t, request, waiter) && waiter < |t.begun|
    ensures waiter < |Run(style, t, steps).begun|
    ensures Parked(Run(style, t, steps), request, waiter) <==> AllSpare(style, t, steps, request)
    ensures Parked(Run(style, t, steps), request, waiter) ==> Run(style, t, steps).rounds[request] == t.rounds[request]
    decreases |steps|
  {
    if steps != [] {
      var n := |steps| - 1;
      SparedRun(style, t, steps[..n], request, waiter);
      SparedNext(style, Run(style, t, steps[..n]), steps[n], request, waiter);
    }
  }

  /** Only a responder whose response was verified consumes anything. */
  lemma OnlyVerified<R>(style: Style, t: Table<R>, who: nat)
    requires !(who in t.flights && t.flights[who].verified.Some?)
    ensures Next(style, t, Consume(who)) == t
  {
  }

  lemma Answered<R>(style: Style, u: Table<R>, request: string, who: nat, response: R, now: int)
    requires Open(u, request, now) && u.rounds[request].armed && who !in u.flights
    ensures ConsumeRound(style, VerifyResponse(LookUp(u, who, request, now), who, response, true), who).delivered ==
      u.delivered + [Delivery(u.rounds[request].waiter, request, u.rounds[request].challenge, response)]
  {
  }

  lemma NotAnswered<R>(style: Style, u: Table<R>, request: string, waiter: nat, who: nat, response: R, now: int,
                       d: Delivery<R>)
    requires who !in u.flights && !Parked(u, request, waiter) && d.waiter == waiter
    ensures ConsumeRound(style, VerifyResponse(LookUp(u, who, request, now), who, response, true), who).delivered !=
      u.delivered + [d]
  {
    var v := ConsumeRound(style, VerifyResponse(LookUp(u, who, request, now), who, response, true), who);
    var n := |u.delivered|;
    assert (u.delivered + [d])[n] == d;
    assert v.delivered == u.delivered || v.delivered[n].waiter != waiter;
  }

  /**
   * Exactly when an open round still answers its waiter: whatever else runs meanwhile, rejected responses
   * and rounds of other requests included, the first response that verifies reaches that waiter if and
   * only if no step began, ended, expired or consumed this round.
   */
  lemma StillAnswerable<R>(style: Style, t: Table<R>, steps: seq<Step<R>>, request: string, who: nat, response: R,
                           now: int)
    requires Inv(t) && request in t.rounds && now <= t.rounds[request].deadline && t.rounds[request].armed
    requires who !in Run(style, t, steps).flights
    ensures var u := Run(style, t, steps);
      ConsumeRound(style, VerifyResponse(LookUp(u, who, request, now), who, response, true), who).delivered ==
        u.delivered + [Delivery(t.rounds[request].waiter, request, t.rounds[request].challenge, response)]
      <==> AllSpare(style, t, steps, request)
  {
    var u := Run(style, t, steps);
    var round := t.rounds[request];
    assert RoundFits(t, request);
    SparedRun(style, t, steps, request, round.waiter);
    if AllSpare(style, t, steps, request) {
      Answered(style, u, request, who, response, now);
    } else {
      NotAnswered(style, u, request, round.waiter, who, response, now,
                  Delivery(round.waiter, request, round.challenge, response));
    }
  }

  // ------------------------------------------------------------------ in time

  /** Step `a` began a round of this request, with this challenge and deadline. */
  ghost predicate BeganAt<R>(steps: seq<Step<R>>, a: nat, q: string, challenge: string, deadline: int) {
    a < |steps| && steps[a] == Begin(q, challenge, deadline)
  }

  /** Step `b` looked the request up no later than the deadline of the round begun at `a`. */
  ghost predicate LookedInTime<R>(steps: seq<Step<R>>, a: nat, b: nat, q: string, challenge: string) {
    && a < b < |steps| && steps[a].Begin? && steps[a].request == q && steps[a].challenge == challenge
    && steps[b].Look? && steps[b].request == q && steps[b].now <= steps[a].deadline
  }

  ghost predicate RoundBegan<R>(steps: seq<Step<R>>, q: string, round: Round) {
    exists a: nat :: BeganAt(steps, a, q, round.challenge, round.deadline)
  }

  ghost predicate Timely<R>(steps: seq<Step<R>>, q: string, challenge: string) {
    exists a: nat, b: nat :: LookedInTime(steps, a, b, q, challenge)
  }

  ghost predicate InTime<R>(t: Table<R>, steps: seq<Step<R>>) {
    && (forall q :: q in t.rounds ==> RoundBegan(steps, q, t.rounds[q]))
    && (forall who :: who in t.flights ==> Timely(steps, t.flights[who].request, t.flights[who].challenge))
    && (forall i :: 0 <= i < |t.delivered| ==> Timely(steps, t.delivered[i].request, t.delivered[i].challenge))
  }

  lemma TimelyOn<R>(steps: seq<Step<R>>, step: Step<R>, q: string, challenge: string)
    requires Timely(steps, q, challenge)
    ensures Timely(steps + [step], q, challenge)
  {
    var a: nat, b: nat :| LookedInTime(steps, a, b, q, challenge);
    assert LookedInTime(steps + [step], a, b, q, challenge);
  }

  lemma BeganOn<R>(steps: seq<Step<R>>, step: Step<R>, q: string, round: Round)
    requires RoundBegan(steps, q, round)
    ensures RoundBegan(steps + [step], q, round)
  {
    var a: nat :| BeganAt(steps, a, q, round.challenge, round.deadline);
    assert BeganAt(steps + [step], a, q, round.challenge, round.deadline);
  }

  lemma InTimeOn<R>(t: Table<R>, steps: seq<Step<R>>, step: Step<R>)
    requires InTime(t, steps)
    ensures InTime(t, steps + [step])
  {
    forall q | q in t.rounds ensures RoundBegan(steps + [step], q, t.rounds[q]) {
      BeganOn(steps, step, q, t.rounds[q]);
    }
    forall who | who in t.flights ensures Timely(steps + [step], t.flights[who].request, t.flights[who].challenge) {
      TimelyOn(steps, step, t.flights[who].request, t.flights[who].challenge);
    }
    forall i | 0 <= i < |t.delivered|
      ensures Timely(steps + [step], t.delivered[i].request, t.delivered[i].challenge)
    {
      TimelyOn(steps, step, t.delivered[i].request, t.delivered[i].challenge);
    }
  }

  lemma LookTimely<R>(t: Table<R>, steps: seq<Step<R>>, who: nat, request: string, now: int)
    requires InTime(t, steps) && request in t.rounds && now <= t.rounds[request].deadline
    ensures Timely(steps + [Look(who, request, now)], request, t.rounds[request].challenge)
  {
    var round := t.rounds[request];
    var a: nat :| BeganAt(steps, a, request, round.challenge, round.deadline);
    assert LookedInTime(steps + [Look(who, request, now)], a, |steps|, request, round.challenge);
  }

  lemma InTimeNext<R>(style: Style, t: Table<R>, steps: seq<Step<R>>, step: Step<R>)
    requires InTime(t, steps)
    ensures InTime(Next(style, t, step), steps + [step])
  {
    InTimeOn(t, steps, step);
    match step
    case Begin(request, challenge, deadline) =>
      assert BeganAt(steps + [step], |steps|, request, challenge, deadline);
    case Look(who, request, now) =>
      if request in t.rounds && now <= t.rounds[request].deadline { LookTimely(t, steps, who, request, now); }
    case Verify(_, _, _) =>
    case Consume(_) =>
    case End(_) =>
    case Expire(_) =>
  }

  lemma {:induction false} RunInTime<R>(style: Style, steps: seq<Step<R>>)
    ensures InTime(Run(style, Empty(), steps), steps)
    decreases |steps|
  {
    if steps != [] {
      var n := |steps| - 1;
      RunInTime(style, steps[..n]);
      InTimeNext(style, Run(style, Empty(), steps[..n]), steps[..n], steps[n]);
      assert steps[..n] + [steps[n]] == steps;
    }
  }

  /** Over every run, whatever is answered was looked up before the deadline of a round begun for that request. */
  lemma AnsweredInTime<R>(style: Style, steps: seq<Step<R>>, i: nat) returns (a: nat, b: nat)
    requires i < |Run(style, Empty(), steps).delivered|
    ensures var d := Run(style, Empty(), steps).delivered[i];
      && a < b < |steps| && steps[a].Begin? && steps[a].request == d.request && steps[a].challenge == d.challenge
      && steps[b].Look? && steps[b].request == d.request && steps[b].now <= steps[a].deadline
  {
    RunInTime(style, steps);
    var d := Run(style, Empty(), steps).delivered[i];
    a, b :| LookedInTime(steps, a, b, d.request, d.challenge);
  }

  // ------------------------------------------------------------------ the tables

  lemma TakenUnanswered<R>(style: Style, steps: seq<Step<R>>, who: nat)
    ensures var t := Run(style, Empty(), steps);
      Takes(t, who) ==>
        forall i :: 0 <= i < |t.delivered| ==> t.delivered[i].waiter != t.rounds[t.flights[who].request].waiter
  {
    RunInv(style, Empty(), steps);
    var t := Run(style, Empty(), steps);
    if Takes(t, who) {
      forall i | 0 <= i < |t.delivered| ensures t.delivered[i].waiter != t.rounds[t.flights[who].request].waiter {
        assert DeliveryFits(t, t.delivered[i]) && RoundFits(t, t.flights[who].request);
      }
    }
  }

  /**
   * The shared table, one method per section under its lock. The responders in flight, the answers sent
   * and the history are ghost: they make every execution of these methods one run of the protocol.
   */
  class RoundTable<R> {
    const style: Style
    var rounds: map<string, Round>
    var made: nat
    ghost var flights: map<nat, Flight<R>>
    ghost var delivered: seq<Delivery<R>>
    ghost var begun: seq<Begun>
    ghost var steps: seq<Step<R>>

    ghost function State(): Table<R>
      reads this
    {
      Table(rounds, flights, delivered, begun)
    }

    ghost predicate Valid()
      reads this
    {
      && made == |begun|
      && State() == Run(style, Empty(), steps)
      && (style.RemovesSpent? ==> forall q :: q in rounds ==> rounds[q].armed)
    }

    /** The object made exactly this step of the protocol, and its new table is what the protocol says. */
    twostate predicate Made(step: Step<R>)
      reads this
    {
      Valid() && steps == old(steps) + [step] && State() == Next(style, old(State()), step)
    }

    constructor (s: Style)
      ensures Valid() && style == s && steps == []
    {
      style, rounds, made := s, map[], 0;
      flights, delivered, begun, steps := map[], [], [], [];
    }

    /** Park a new waiter, under a request that may already have one. */
    method BeginRoundFor(request: string, challenge: string, deadline: int) returns (waiter: nat)
      requires Valid()
      modifies this
      ensures Made(Begin(request, challenge, deadline))
      ensures forall i :: 0 <= i < |delivered| ==> delivered[i].waiter != waiter
      ensures waiter == |old(begun)| && begun == old(begun) + [Begun(request, challenge)]
      ensures request in rounds && rounds[request] == Round(challenge, waiter, deadline, true)
      ensures rounds - {request} == old(rounds) - {request} && delivered == old(delivered) && flights == old(flights)
    {
      RunInv(style, Empty(), steps);
      assert forall i :: 0 <= i < |delivered| ==> DeliveryFits(State(), delivered[i]);
      RunThen(style, steps, Begin(request, challenge, deadline));
      waiter := made;
      rounds := rounds[request := Round(challenge, waiter, deadline, true)];
      made := made + 1;
      begun := begun + [Begun(request, challenge)];
      steps := steps + [Begin(request, challenge, deadline)];
    }

    /** What a new responder is asked to answer; `Err` distinguishes a missing round from an expired one. */
    method Challenge(ghost who: nat, request: string, now: int) returns (r: Result<string, bool>)
      requires Valid() && who !in flights
      modifies this`flights, this`steps
      ensures Made(Look(who, request, now))
      ensures r.Ok? <==> request in rounds && now <= rounds[request].deadline
      ensures r == Err(true) <==> request in rounds && rounds[request].deadline < now
      ensures r == Err(false) <==> request !in rounds
      ensures r.Ok? ==> r.value == rounds[request].challenge && Begun(request, r.value) in begun
      ensures flights == if r.Ok? then old(flights)[who := Flight(request, r.value, None)] else old(flights)
    {
      RunInv(style, Empty(), steps);
      RunThen(style, steps, Look(who, request, now));
      flights := LookUp(State(), who, request, now).flights;
      steps := steps + [Look(who, request, now)];
      if request !in rounds { return Err(false); }
      if now > rounds[request].deadline { return Err(true); }
      assert RoundFits(State(), request);
      return Ok(rounds[request].challenge);
    }

    /** Outside the lock: the signature of one responder was checked. */
    ghost method Verified(who: nat, response: R, accepted: bool)
      requires Valid()
      modifies this`flights, this`steps
      ensures Made(Verify(who, response, accepted))
      ensures flights - {who} == old(flights) - {who}
      ensures who in old(flights) && old(flights)[who].verified.None? && accepted ==>
        who in flights && flights[who] == Flight(old(flights)[who].request, old(flights)[who].challenge, Some(response))
      ensures who in old(flights) && old(flights)[who].verified.None? && !accepted ==> who !in flights
    {
      RunThen(style, steps, Verify(who, response, accepted));
      flights := VerifyResponse(State(), who, response, accepted).flights;
      steps := steps + [Verify(who, response, accepted)];
    }

    /**
     * Take the waiter's channel after verification. The channel handed out belongs to a waiter that was
     * never answered before, and it is handed out exactly when the round is still there and unspent.
     */
    method Take(ghost who: nat, request: string) returns (waiter: Option<nat>)
      requires Valid() && who in flights && flights[who].verified.Some? && flights[who].request == request
      modifies this
      ensures Made(Consume(who))
      ensures waiter.Some? <==> request in old(rounds) && old(rounds)[request].armed
      ensures waiter.Some? ==> waiter.value == old(rounds)[request].waiter
      ensures style.RemovesSpent? ==> rounds == old(rounds) - {request}
      ensures style.KeepsSpent? ==>
        && rounds - {request} == old(rounds) - {request} && (request in rounds <==> request in old(rounds))
        && (request in rounds ==> rounds[request] == old(rounds)[request].(armed := false))
      ensures flights == old(flights) - {who}
      ensures waiter.None? ==> delivered == old(delivered)
      ensures waiter.Some? ==>
        && delivered == old(delivered)
             + [Delivery(waiter.value, request, old(flights[who].challenge), old(flights[who].verified.value))]
        && forall i :: 0 <= i < |old(delivered)| ==> old(delivered)[i].waiter != waiter.value
    {
      RunThen(style, steps, Consume(who));
      TakenUnanswered(style, steps, who);
      ghost var next := ConsumeRound(style, State(), who);
      flights, delivered := next.flights, next.delivered;
      steps := steps + [Consume(who)];
      if request !in rounds { return None; }
      var round := rounds[request];
      if style.KeepsSpent? {
        rounds := rounds[request := round.(armed := false)];
      } else {
        rounds := rounds - {request};
      }
      return if round.armed then Some(round.waiter) else None;
    }

    /** The waiter gave up. */
    method EndRound(request: string)
      requires Valid()
      modifies this`rounds, this`steps
      ensures Made(End(request))
      ensures request !in rounds && rounds == old(rounds) - {request}
    {
      RunThen(style, steps, End(request));
      rounds := rounds - {request};
      steps := steps + [End(request)];
    }

    method ExpirePending(now: int)
      requires Valid()
      modifies this`rounds, this`steps
      ensures Made(Expire(now))
      ensures forall q :: q in rounds <==> q in old(rounds) && now <= old(rounds)[q].deadline
      ensures forall q :: q in rounds ==> rounds[q] == old(rounds)[q]
    {
      RunThen(style, steps, Expire(now));
      rounds := map q | q in rounds && now <= rounds[q].deadline :: rounds[q];
      steps := steps + [Expire(now)];
    }
  }
}
