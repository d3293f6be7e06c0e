/** Revocation and issuance keep the ledger consistent. */
module ScopeTableSteps {
  import opened Wrappers
  import opened ScopeTypes
  import opened ScopeForest
  import opened ScopeConsistency
  import opened ScopeEvolution
  import opened ScopeSteps

  /** A scope row is stored and one event about it is appended. */
  function Stored(a: Ledger, r: ScopeRecord, kind: EventKind): Ledger {
    a.(scopes := a.scopes[r.grant.scopeId := r],
       events := a.events + [AuthorityEvent(|a.events| + 1, r.grant.scopeId, None, kind, Some(a.lastSeen), r.digest)])
  }

  // ------------------------------------------------------------------ revoke

  function RevokedRow(a: Ledger, id: string): ScopeRecord
    requires id in a.scopes
  {
    a.scopes[id].(revokedAt := Some(a.lastSeen))
  }

  lemma RevokedForest(c: Contracts, a: Ledger, id: string)
    requires SoundScopes(c, a.scopes) && Forest(a.scopes) && id in a.scopes
    ensures SoundScopes(c, Stored(a, RevokedRow(a, id), ScopeRevoked).scopes)
    ensures Forest(Stored(a, RevokedRow(a, id), ScopeRevoked).scopes)
  {
    var b := Stored(a, RevokedRow(a, id), ScopeRevoked);
    assert forall x :: x in b.scopes ==>
      x in a.scopes && b.scopes[x].grant == a.scopes[x].grant && b.scopes[x].digest == a.scopes[x].digest;
    forall x | x in b.scopes ensures SoundScope(c, b.scopes, x) { assert SoundScope(c, a.scopes, x); }
  }

  lemma RevokedEvolves(a: Ledger, id: string)
    requires id in a.scopes && a.scopes[id].grant.scopeId == id && a.scopes[id].revokedAt.None?
    ensures Evolves(a, Stored(a, RevokedRow(a, id), ScopeRevoked))
  {
  }

  lemma RevokedTables(c: Contracts, a: Ledger, id: string)
    requires Tables(c, a) && id in a.scopes && a.scopes[id].revokedAt.None?
    ensures Tables(c, Stored(a, RevokedRow(a, id), ScopeRevoked))
  {
    var b := Stored(a, RevokedRow(a, id), ScopeRevoked);
    RevokedForest(c, a, id);
    RevokedEvolves(a, id);
    forall x | x in b.actions ensures ActionRow(c, b, x) { OldAction(c, a, b, x); }
    forall x | x in b.scopes ensures ScopeRow(b, x) {
      assert ScopeRow(a, x);
      OldScope(c, a, b, x);
    }
  }

  lemma RevokedCharges(c: Contracts, a: Ledger, id: string)
    requires Tables(c, a) && Charges(a) && id in a.scopes
    ensures Forest(Stored(a, RevokedRow(a, id), ScopeRevoked).scopes)
    ensures Charges(Stored(a, RevokedRow(a, id), ScopeRevoked))
  {
    var b := Stored(a, RevokedRow(a, id), ScopeRevoked);
    RevokedForest(c, a, id);
    ActionScopes(c, a);
    ChargesSame(a, b);
  }

  lemma RevokedNew(a: Ledger, id: string)
    requires Forest(a.scopes) && History(a) && a.lastSeen >= 0 && id in a.scopes && a.scopes[id].revokedAt.None?
    requires Forest(Stored(a, RevokedRow(a, id), ScopeRevoked).scopes)
    ensures EventRow(Stored(a, RevokedRow(a, id), ScopeRevoked), |a.events|)
    ensures ScopeRecorded(Stored(a, RevokedRow(a, id), ScopeRevoked), id)
  {
    var b := Stored(a, RevokedRow(a, id), ScopeRevoked);
    var e := b.events[|a.events|];
    assert ScopeRecorded(a, id);
    if Seen(a.events, |a.events|, id, ScopeRevoked) { Unheard(a, id, ScopeRevoked); }
    NewPlaced(a, b, e);
    SeenNew(a.events, e);
  }

  lemma RevokedHistory(c: Contracts, a: Ledger, id: string)
    requires SoundScopes(c, a.scopes) && Forest(a.scopes) && History(a) && a.lastSeen >= 0
    requires id in a.scopes && a.scopes[id].revokedAt.None?
    ensures Forest(Stored(a, RevokedRow(a, id), ScopeRevoked).scopes)
    ensures History(Stored(a, RevokedRow(a, id), ScopeRevoked))
  {
    RevokedForest(c, a, id);
    RevokedNew(a, id);
    RevokedEvolves(a, id);
    HistoryGrows(a, Stored(a, RevokedRow(a, id), ScopeRevoked));
  }

  /** Revoking a live scope keeps the ledger consistent. */
  lemma RevokedKept(c: Contracts, a: Ledger, id: string)
    requires Consistent(c, a) && id in a.scopes && a.scopes[id].revokedAt.None?
    ensures Kept(c, a, Stored(a, RevokedRow(a, id), ScopeRevoked))
  {
    RevokedTables(c, a, id);
    RevokedCharges(c, a, id);
    RevokedHistory(c, a, id);
    RevokedEvolves(a, id);
  }

  // ------------------------------------------------------------------ issue

  /** What the checks of `issue_scope` have established when the row is inserted. */
  ghost predicate Issuable(c: Contracts, a: Ledger, g: ScopeGrant)
    requires Forest(a.scopes)
  {
    && g.scopeId !in a.scopes
    && c.canonGrant(g) == Ok(g)
    && g.owner == a.owner
    && a.lastSeen < g.expiresAt
    && (g.parentId.Some? ==>
          && g.parentId.value in a.scopes
          && c.childOf(g, a.scopes[g.parentId.value].grant).None?
          && forall x :: Above(a.scopes, x, g.parentId.value) ==> Active(a.scopes[x], a.lastSeen))
  }

  function IssuedRow(c: Contracts, a: Ledger, g: ScopeGrant): ScopeRecord {
    ScopeRecord(g, c.grantDigest(g), a.lastSeen, None, 0, {})
  }

  lemma IssuedForest(c: Contracts, a: Ledger, g: ScopeGrant)
    requires Lawful(c) && SoundScopes(c, a.scopes) && Forest(a.scopes) && Issuable(c, a, g)
    ensures SoundScopes(c, Stored(a, IssuedRow(c, a, g), ScopeIssued).scopes)
    ensures Forest(Stored(a, IssuedRow(c, a, g), ScopeIssued).scopes)
  {
    var b := Stored(a, IssuedRow(c, a, g), ScopeIssued);
    forall x | x in b.scopes ensures SoundScope(c, b.scopes, x) {
      if x != g.scopeId { assert SoundScope(c, a.scopes, x); }
    }
    SoundForest(c, b.scopes);
  }

  lemma IssuedEvolves(c: Contracts, a: Ledger, g: ScopeGrant)
    requires g.scopeId !in a.scopes
    ensures Evolves(a, Stored(a, IssuedRow(c, a, g), ScopeIssued))
  {
  }

  /** A new scope's ancestors are its parent's line, which was there before. */
  lemma IssuedLine(c: Contracts, a: Ledger, g: ScopeGrant, x: string)
    requires Forest(a.scopes) && Issuable(c, a, g) && Forest(Stored(a, IssuedRow(c, a, g), ScopeIssued).scopes)
    requires Above(Stored(a, IssuedRow(c, a, g), ScopeIssued).scopes, x, g.scopeId) && x != g.scopeId
    ensures g.parentId.Some? && Above(a.scopes, x, g.parentId.value) && x in a.scopes
  {
    var b := Stored(a, IssuedRow(c, a, g), ScopeIssued);
    LinesStable(a.scopes, b.scopes);
    if g.parentId.Some? { LineParent(b.scopes, g.scopeId); }
  }

  lemma IssuedTimes(c: Contracts, a: Ledger, g: ScopeGrant)
    requires Lawful(c) && Tables(c, a) && Issuable(c, a, g)
    requires Forest(Stored(a, IssuedRow(c, a, g), ScopeIssued).scopes)
    ensures ScopeTimes(Stored(a, IssuedRow(c, a, g), ScopeIssued), g.scopeId)
  {
    var b := Stored(a, IssuedRow(c, a, g), ScopeIssued);
    forall x | Above(b.scopes, x, g.scopeId) && x != g.scopeId ensures CouldDelegate(b.scopes[x], a.lastSeen) {
      IssuedLine(c, a, g, x);
      assert ScopeRow(a, x) && Active(a.scopes[x], a.lastSeen);
    }
  }

  lemma IssuedTables(c: Contracts, a: Ledger, g: ScopeGrant)
    requires Lawful(c) && Tables(c, a) && Issuable(c, a, g)
    ensures Tables(c, Stored(a, IssuedRow(c, a, g), ScopeIssued))
  {
    var b := Stored(a, IssuedRow(c, a, g), ScopeIssued);
    IssuedForest(c, a, g);
    IssuedEvolves(c, a, g);
    IssuedTimes(c, a, g);
    forall x | x in b.actions ensures ActionRow(c, b, x) { OldAction(c, a, b, x); }
    forall x | x in b.scopes ensures ScopeRow(b, x) {
      if x != g.scopeId {
        assert ScopeRow(a, x);
        OldScope(c, a, b, x);
      }
    }
  }

  lemma IssuedCharges(c: Contracts, a: Ledger, g: ScopeGrant)
    requires Tables(c, a) && Charges(a) && Issuable(c, a, g)
    requires Forest(Stored(a, IssuedRow(c, a, g), ScopeIssued).scopes)
    ensures Charges(Stored(a, IssuedRow(c, a, g), ScopeIssued))
  {
    var b := Stored(a, IssuedRow(c, a, g), ScopeIssued);
    forall x | x in a.actions ensures a.actions[x].action.scopeId in a.scopes { assert ActionRow(c, a, x); }
    forall s | s in b.scopes ensures Charged(b, s) {
      if s == g.scopeId {
        LinesStable(a.scopes, b.scopes);
        assert Under(b, s) == {};
      } else {
        assert Charged(a, s);
        SameUnder(a, b, s);
      }
    }
  }

  lemma IssuedNew(c: Contracts, a: Ledger, g: ScopeGrant)
    requires Tables(c, a) && History(a) && Issuable(c, a, g)
    requires Forest(Stored(a, IssuedRow(c, a, g), ScopeIssued).scopes)
    ensures EventRow(Stored(a, IssuedRow(c, a, g), ScopeIssued), |a.events|)
    ensures ScopeRecorded(Stored(a, IssuedRow(c, a, g), ScopeIssued), g.scopeId)
  {
    var b := Stored(a, IssuedRow(c, a, g), ScopeIssued);
    var e := b.events[|a.events|];
    forall k | Seen(a.events, |a.events|, g.scopeId, k) && (k.ScopeIssued? || k.ScopeRevoked?) ensures false {
      Unheard(a, g.scopeId, k);
    }
    NewPlaced(a, b, e);
    SeenNew(a.events, e);
    forall x | Above(b.scopes, x, g.scopeId)
      ensures Seen(b.events, |b.events|, x, ScopeIssued) && !Seen(b.events, |b.events|, x, ScopeRevoked)
    {
      if x != g.scopeId {
        IssuedLine(c, a, g, x);
        LineAuthorised(a, g.parentId.value);
      }
    }
  }

  /** Issuing a scope whose whole ancestry is active keeps the ledger consistent. */
  lemma IssuedKept(c: Contracts, a: Ledger, g: ScopeGrant)
    requires Lawful(c) && Consistent(c, a) && Issuable(c, a, g)
    ensures Kept(c, a, Stored(a, IssuedRow(c, a, g), ScopeIssued))
  {
    IssuedTables(c, a, g);
    IssuedCharges(c, a, g);
    IssuedNew(c, a, g);
    IssuedEvolves(c, a, g);
    HistoryGrows(a, Stored(a, IssuedRow(c, a, g), ScopeIssued));
  }
}
