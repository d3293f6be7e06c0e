/** The event log refines the tables: what it says of an attempt or a scope is exactly its row. */
module ScopeHistory {
  import opened Wrappers
  import opened ScopeTypes
  import opened ScopeForest
  import opened ScopeConsistency
  import opened ScopeLedger
  import opened ScopeSteps
  import opened ScopeTheorems

  datatype Stamp = Stamp(kind: EventKind, at: Option<int>)

  /** The log restricted to one attempt. */
  function Trail(events: seq<AuthorityEvent>, id: string): seq<Stamp> {
    if events == [] then []
    else
      var e := events[|events| - 1];
      Trail(events[..|events| - 1], id) + (if e.actionId == Some(id) then [Stamp(e.kind, e.observedAt)] else [])
  }

  /** The log restricted to one scope's own events. */
  function ScopeTrail(events: seq<AuthorityEvent>, id: string): seq<Stamp> {
    if events == [] then []
    else
      var e := events[|events| - 1];
      ScopeTrail(events[..|events| - 1], id)
      + (if e.actionId == None && e.scopeId == id then [Stamp(e.kind, e.observedAt)] else [])
  }

  /** The lifecycle a row stands for: charged, perhaps claimed, perhaps finished or interrupted. */
  function Life(r: ActionRecord): seq<Stamp> {
    [Stamp(AttemptCharged, Some(r.reservedAt))]
    + (if r.dispatchClaimedAt.Some? then [Stamp(ClaimRecorded, r.dispatchClaimedAt)] else [])
    + (if r.finishedAt.Some? then [Stamp(AttemptFinished, r.finishedAt)]
       else if r.state.Unknown? then [Stamp(Interrupted, None)] else [])
  }

  function ScopeLife(r: ScopeRecord): seq<Stamp> {
    [Stamp(ScopeIssued, Some(r.issuedAt))] + (if r.revokedAt.Some? then [Stamp(ScopeRevoked, r.revokedAt)] else [])
  }

  /** The part of a lifecycle recorded by the first `n` events. */
  ghost function LifeSoFar(l: Ledger, n: nat, id: string): seq<Stamp>
    requires n <= |l.events| && id in l.actions
  {
    var r := l.actions[id];
    (if Seen(l.events, n, id, AttemptCharged) then [Stamp(AttemptCharged, Some(r.reservedAt))] else [])
    + (if Seen(l.events, n, id, ClaimRecorded) then [Stamp(ClaimRecorded, r.dispatchClaimedAt)] else [])
    + (if Seen(l.events, n, id, AttemptFinished) then [Stamp(AttemptFinished, r.finishedAt)] else [])
    + (if Seen(l.events, n, id, Interrupted) then [Stamp(Interrupted, None)] else [])
  }

  lemma SeenStep(events: seq<AuthorityEvent>, n: nat, s: string, k: EventKind)
    requires n < |events|
    ensures Seen(events, n + 1, s, k) <==> Seen(events, n, s, k) || (Subject(events[n]) == s && events[n].kind == k)
  {
  }

  /** Nothing later in a lifecycle has been seen before event `n`, which is about the same attempt. */
  lemma NothingLater(l: Ledger, n: nat, id: string)
    requires Forest(l.scopes) && History(l) && n < |l.events| && l.events[n].actionId == Some(id)
    ensures id in l.actions && !Seen(l.events, n, id, l.events[n].kind)
    ensures l.events[n].kind.AttemptCharged? ==>
      !Seen(l.events, n, id, ClaimRecorded) && !Seen(l.events, n, id, AttemptFinished)
        && !Seen(l.events, n, id, Interrupted)
    ensures l.events[n].kind.ClaimRecorded? ==>
      !Seen(l.events, n, id, AttemptFinished) && !Seen(l.events, n, id, Interrupted)
    ensures l.events[n].kind.AttemptFinished? ==> !Seen(l.events, n, id, Interrupted)
    ensures l.events[n].kind.Interrupted? ==> !Seen(l.events, n, id, AttemptFinished)
  {
    var e := l.events[n];
    assert EventRow(l, n);
    forall k | Seen(l.events, n, id, k) && !k.AttemptCharged?
      ensures Seen(l.events, n, id, AttemptCharged) || k.ScopeIssued? || k.ScopeRevoked?
      ensures (k.AttemptFinished? || k.Interrupted?) && e.kind.ClaimRecorded? ==> Seen(l.events, n, id, ClaimRecorded)
      ensures k.AttemptFinished? ==> l.actions[id].finishedAt.Some?
      ensures k.Interrupted? ==> l.actions[id].finishedAt.None?
    {
      var j :| 0 <= j < n && Subject(l.events[j]) == id && l.events[j].kind == k;
      assert EventRow(l, j);
    }
  }

  /** An event about the attempt extends its recorded life by its own stamp. */
  lemma LifeGrows(l: Ledger, n: nat, id: string)
    requires Forest(l.scopes) && History(l) && n < |l.events| && l.events[n].actionId == Some(id) && id in l.actions
    ensures LifeSoFar(l, n + 1, id) == LifeSoFar(l, n, id) + [Stamp(l.events[n].kind, l.events[n].observedAt)]
  {
    NothingLater(l, n, id);
    SeenFour(l.events, n, id);
    assert EventRow(l, n);
    assert ActionEvent(l, l.events[n]);
  }

  lemma SeenFour(events: seq<AuthorityEvent>, n: nat, s: string)
    requires n < |events|
    ensures forall k :: Seen(events, n + 1, s, k) <==>
      Seen(events, n, s, k) || (Subject(events[n]) == s && events[n].kind == k)
  {
    forall k
      ensures Seen(events, n + 1, s, k) <==> Seen(events, n, s, k) || (Subject(events[n]) == s && events[n].kind == k)
    {
      SeenStep(events, n, s, k);
    }
  }

  /** Any other event leaves it as it was. */
  lemma LifeStays(l: Ledger, n: nat, id: string)
    requires Forest(l.scopes) && n < |l.events| && EventRow(l, n) && l.events[n].actionId != Some(id) && id in l.actions
    ensures LifeSoFar(l, n + 1, id) == LifeSoFar(l, n, id)
  {
    SeenFour(l.events, n, id);
  }

  lemma {:induction false} TrailSoFar(l: Ledger, n: nat, id: string)
    requires Forest(l.scopes) && History(l) && n <= |l.events| && id in l.actions
    ensures Trail(l.events[..n], id) == LifeSoFar(l, n, id)
    decreases n
  {
    if n > 0 {
      TrailSoFar(l, n - 1, id);
      TrailStep(l.events, n, id);
      if l.events[n - 1].actionId == Some(id) {
        LifeGrows(l, n - 1, id);
      } else {
        assert EventRow(l, n - 1);
        LifeStays(l, n - 1, id);
      }
    }
  }

  lemma TrailStep(events: seq<AuthorityEvent>, n: nat, id: string)
    requires 0 < n <= |events|
    ensures var e := events[n - 1];
      Trail(events[..n], id) ==
        Trail(events[..n - 1], id) + (if e.actionId == Some(id) then [Stamp(e.kind, e.observedAt)] else [])
  {
    assert events[..n][..n - 1] == events[..n - 1];
  }

  /** The log's account of an attempt is the lifecycle its row stands for, times included. */
  lemma TrailIsLife(c: Contracts, l: Ledger, id: string)
    requires Consistent(c, l) && id in l.actions
    ensures Trail(l.events, id) == Life(l.actions[id])
  {
    var n := |l.events|;
    TrailSoFar(l, n, id);
    assert l.events[..n] == l.events;
    assert ActionRow(c, l, id) && ActionRecorded(l, id);
    forall k | Seen(l.events, n, id, k) && (k.ClaimRecorded? || k.AttemptFinished? || k.Interrupted?)
      ensures k.ClaimRecorded? ==> l.actions[id].dispatchClaimedAt.Some?
      ensures k.AttemptFinished? ==> l.actions[id].finishedAt.Some?
      ensures k.Interrupted? ==> l.actions[id].state.Unknown? && l.actions[id].finishedAt.None?
    {
      Unheard(l, id, k);
    }
  }

  /** The log decides whether an attempt is pending, claimed or over, and how it got there. */
  lemma TrailDecidesState(c: Contracts, l: Ledger, id: string)
    requires Consistent(c, l) && id in l.actions
    ensures var t, r := Trail(l.events, id), l.actions[id];
      && |t| > 0
      && (r.state.Reserved? <==> |t| == 1)
      && (r.state.DispatchClaimed? <==> |t| == 2 && t[1].kind.ClaimRecorded?)
      && (!Pending(r) <==> t[|t| - 1].kind.AttemptFinished? || t[|t| - 1].kind.Interrupted?)
      && (r.state.ApiAccepted? ==> |t| == 3 && t[1].kind.ClaimRecorded? && t[2].kind.AttemptFinished?)
      && (r.state.Unknown? && r.finishedAt.None? <==> t[|t| - 1].kind.Interrupted?)
  {
    TrailIsLife(c, l, id);
    assert ActionRow(c, l, id);
  }

  ghost function ScopeLifeSoFar(l: Ledger, n: nat, id: string): seq<Stamp>
    requires n <= |l.events| && id in l.scopes
  {
    (if Seen(l.events, n, id, ScopeIssued) then [Stamp(ScopeIssued, Some(l.scopes[id].issuedAt))] else [])
    + (if Seen(l.events, n, id, ScopeRevoked) then [Stamp(ScopeRevoked, l.scopes[id].revokedAt)] else [])
  }

  lemma ScopeLifeGrows(l: Ledger, n: nat, id: string)
    requires Forest(l.scopes) && History(l) && n < |l.events| && id in l.scopes
    requires l.events[n].actionId == None && l.events[n].scopeId == id
    ensures ScopeLifeSoFar(l, n + 1, id) == ScopeLifeSoFar(l, n, id) + [Stamp(l.events[n].kind, l.events[n].observedAt)]
  {
    SeenFour(l.events, n, id);
    assert EventRow(l, n);
    IssuedBeforeRevoked(l, n, id);
  }

  lemma IssuedBeforeRevoked(l: Ledger, n: nat, id: string)
    requires Forest(l.scopes) && History(l) && n <= |l.events|
    ensures Seen(l.events, n, id, ScopeRevoked) ==> Seen(l.events, n, id, ScopeIssued)
  {
    if Seen(l.events, n, id, ScopeRevoked) {
      var j :| 0 <= j < n && Subject(l.events[j]) == id && l.events[j].kind == ScopeRevoked;
      assert EventRow(l, j);
    }
  }

  lemma ScopeLifeStays(l: Ledger, n: nat, id: string)
    requires Forest(l.scopes) && n < |l.events| && EventRow(l, n) && id in l.scopes
    requires l.events[n].actionId != None || l.events[n].scopeId != id
    ensures ScopeLifeSoFar(l, n + 1, id) == ScopeLifeSoFar(l, n, id)
  {
    SeenFour(l.events, n, id);
  }

  lemma ScopeTrailStep(events: seq<AuthorityEvent>, n: nat, id: string)
    requires 0 < n <= |events|
    ensures var e := events[n - 1];
      ScopeTrail(events[..n], id) == ScopeTrail(events[..n - 1], id)
        + (if e.actionId == None && e.scopeId == id then [Stamp(e.kind, e.observedAt)] else [])
  {
    assert events[..n][..n - 1] == events[..n - 1];
  }

  lemma {:induction false} ScopeTrailSoFar(l: Ledger, n: nat, id: string)
    requires Forest(l.scopes) && History(l) && n <= |l.events| && id in l.scopes
    ensures ScopeTrail(l.events[..n], id) == ScopeLifeSoFar(l, n, id)
    decreases n
  {
    if n > 0 {
      ScopeTrailSoFar(l, n - 1, id);
      ScopeTrailStep(l.events, n, id);
      if l.events[n - 1].actionId == None && l.events[n - 1].scopeId == id {
        ScopeLifeGrows(l, n - 1, id);
      } else {
        assert EventRow(l, n - 1);
        ScopeLifeStays(l, n - 1, id);
      }
    }
  }

  /** The log's account of a scope is its issue and, if its row says so, its one revocation. */
  lemma ScopeTrailIsLife(c: Contracts, l: Ledger, id: string)
    requires Consistent(c, l) && id in l.scopes
    ensures ScopeTrail(l.events, id) == ScopeLife(l.scopes[id])
  {
    var n := |l.events|;
    ScopeTrailSoFar(l, n, id);
    assert l.events[..n] == l.events;
    assert ScopeRecorded(l, id);
    if Seen(l.events, n, id, ScopeRevoked) { Unheard(l, id, ScopeRevoked); }
  }

  lemma SequencesRise(l: Ledger)
    requires Forest(l.scopes) && History(l)
    ensures forall i :: 0 <= i < |l.events| ==> l.events[i].sequence == i + 1
    ensures forall i, j :: 0 <= i < j < |l.events| && l.events[i].observedAt.Some? && l.events[j].observedAt.Some? ==>
      l.events[i].observedAt.value <= l.events[j].observedAt.value
  {
    forall i | 0 <= i < |l.events| ensures l.events[i].sequence == i + 1 { assert EventRow(l, i); }
    forall i, j | 0 <= i < j < |l.events| && l.events[i].observedAt.Some? && l.events[j].observedAt.Some?
      ensures l.events[i].observedAt.value <= l.events[j].observedAt.value
    {
      assert EventRow(l, j);
    }
  }

  /**
   * Log refinement over whole runs: sequences are 1..n, earlier logs are prefixes, timed events never
   * run backwards, and the log's account of every row is exactly that row.
   */
  lemma LogRefinesTables(c: Contracts, owner: AuthorityOwner, steps: seq<Step>, k: nat)
    requires Lawful(c) && c.ownerOk(owner) && k <= |steps|
    ensures var l := Run(c, Fresh(owner), steps);
      && Run(c, Fresh(owner), steps[..k]).events <= l.events
      && (forall i :: 0 <= i < |l.events| ==> l.events[i].sequence == i + 1)
      && (forall i, j :: 0 <= i < j < |l.events| && l.events[i].observedAt.Some? && l.events[j].observedAt.Some? ==>
            l.events[i].observedAt.value <= l.events[j].observedAt.value)
      && (forall id :: id in l.actions ==> Trail(l.events, id) == Life(l.actions[id]))
      && (forall id :: id in l.scopes ==> ScopeTrail(l.events, id) == ScopeLife(l.scopes[id]))
  {
    var l := Run(c, Fresh(owner), steps);
    ReachableConsistent(c, owner, steps, k);
    SequencesRise(l);
    forall id | id in l.actions ensures Trail(l.events, id) == Life(l.actions[id]) { TrailIsLife(c, l, id); }
    forall id | id in l.scopes
      ensures ScopeTrail(l.events, id) == ScopeLife(l.scopes[id])
    {
      ScopeTrailIsLife(c, l, id);
    }
  }
}
