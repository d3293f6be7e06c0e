/** Reading rows and ancestries from any table, sound or not: exactly what is returned and what is refused. */
module ScopePaths {
  import opened Wrappers
  import opened ScopeTypes
  import opened ScopeForest
  import opened ScopeLedger

  // ------------------------------------------------------------------ rows

  /** The row is stored under its own id, canonical, and carries its own digest. */
  ghost predicate Readable(c: Contracts, scopes: Scopes, id: string) {
    && id in scopes && scopes[id].grant.scopeId == id
    && c.canonGrant(scopes[id].grant) == Ok(scopes[id].grant)
    && scopes[id].digest == c.grantDigest(scopes[id].grant)
  }

  /** A row is returned exactly when it is readable; absence, an invalid grant and anything else are told apart. */
  lemma LoadScopeExact(c: Contracts, scopes: Scopes, id: string)
    ensures var r := LoadScope(c, scopes, id);
      && (r.Ok? <==> Readable(c, scopes, id)) && (r.Ok? ==> r.value == scopes[id])
      && (r == Err(NotFound) <==> id !in scopes)
      && (forall e :: r == Err(Validation(e)) <==>
            id in scopes && scopes[id].grant.scopeId == id && c.canonGrant(scopes[id].grant) == Err(e))
      && (r.Err? ==> r.error.NotFound? || r.error.Validation? || r.error.Corrupt?)
  {
  }

  lemma LoadActionExact(c: Contracts, l: Ledger, id: string)
    ensures var r := LoadAction(c, l, id);
      && (r.Ok? <==>
            && id in l.actions && l.actions[id].action.actionId == id
            && c.canonAction(l.actions[id].action) == Ok(l.actions[id].action)
            && l.actions[id].digest == c.actionDigest(l.actions[id].action))
      && (r.Ok? ==> r.value == l.actions[id])
      && (r == Err(NotFound) <==> id !in l.actions)
      && (forall e :: r == Err(Validation(e)) <==>
            id in l.actions && l.actions[id].action.actionId == id && c.canonAction(l.actions[id].action) == Err(e))
      && (r.Err? ==> r.error.NotFound? || r.error.Validation? || r.error.Corrupt?)
  {
  }

  // ------------------------------------------------------------------ ancestries

  /** Rows from a scope up to a root, each the parent of the one before it. */
  ghost predicate Path(c: Contracts, scopes: Scopes, id: string, rows: seq<ScopeRecord>)
    decreases |rows|
  {
    && |rows| > 0 && Readable(c, scopes, id) && rows[0] == scopes[id]
    && match scopes[id].grant.parentId
       case None => |rows| == 1
       case Some(p) => Path(c, scopes, p, rows[1..])
  }

  /** No scope of this path is already in the chain. */
  ghost predicate Apart(chain: seq<ScopeRecord>, rows: seq<ScopeRecord>) {
    forall i, j :: 0 <= i < |chain| && 0 <= j < |rows| ==> chain[i].grant.scopeId != rows[j].grant.scopeId
  }

  ghost predicate NoRepeats(rows: seq<ScopeRecord>) {
    forall i, j :: 0 <= i < j < |rows| ==> rows[i].grant.scopeId != rows[j].grant.scopeId
  }

  lemma {:induction false} WalkPath(c: Contracts, scopes: Scopes, id: string, chain: seq<ScopeRecord>)
    requires Walk(c, scopes, id, chain).Ok?
    ensures var rows := Walk(c, scopes, id, chain).value;
      && chain <= rows && |rows| <= 9 && Path(c, scopes, id, rows[|chain|..])
    decreases MAX_DEPTH + 1 - |chain|
  {
    LoadScopeExact(c, scopes, id);
    var rows := Walk(c, scopes, id, chain).value;
    var r := scopes[id];
    if r.grant.parentId.Some? {
      WalkPath(c, scopes, r.grant.parentId.value, chain + [r]);
      assert rows[|chain|..][1..] == rows[|chain + [r]|..];
      assert rows[|chain|] == r;
    } else {
      assert rows[|chain|..] == [r];
    }
  }

  lemma {:induction false} PathWalk(c: Contracts, scopes: Scopes, id: string, chain: seq<ScopeRecord>,
                                    rows: seq<ScopeRecord>)
    requires Path(c, scopes, id, rows) && |chain| + |rows| <= 9 && Apart(chain, rows) && NoRepeats(rows)
    ensures Walk(c, scopes, id, chain) == Ok(chain + rows)
    decreases |rows|
  {
    LoadScopeExact(c, scopes, id);
    var r := scopes[id];
    assert !Visited(chain, id) by { assert rows[0].grant.scopeId == id; }
    if r.grant.parentId.Some? {
      assert forall j :: 0 <= j < |rows[1..]| ==> rows[1..][j] == rows[j + 1];
      PathWalk(c, scopes, r.grant.parentId.value, chain + [r], rows[1..]);
      assert chain + [r] + rows[1..] == chain + rows;
    } else {
      assert rows == [r];
    }
  }

  lemma {:induction false} PathAgain(c: Contracts, scopes: Scopes, id: string, rows: seq<ScopeRecord>, j: nat)
    requires Path(c, scopes, id, rows) && j < |rows|
    ensures Path(c, scopes, rows[j].grant.scopeId, rows[j..])
    decreases j
  {
    if j > 0 {
      PathAgain(c, scopes, scopes[id].grant.parentId.value, rows[1..], j - 1);
      assert rows[1..][j - 1..] == rows[j..] && rows[1..][j - 1] == rows[j];
    } else {
      assert rows[0..] == rows;
    }
  }

  lemma {:induction false} OnePath(c: Contracts, scopes: Scopes, id: string, a: seq<ScopeRecord>, b: seq<ScopeRecord>)
    requires Path(c, scopes, id, a) && Path(c, scopes, id, b)
    ensures |a| == |b|
    decreases |a|
  {
    if scopes[id].grant.parentId.Some? { OnePath(c, scopes, scopes[id].grant.parentId.value, a[1..], b[1..]); }
  }

  /** A path that ends cannot repeat a scope. */
  lemma PathDistinct(c: Contracts, scopes: Scopes, id: string, rows: seq<ScopeRecord>)
    requires Path(c, scopes, id, rows)
    ensures NoRepeats(rows)
  {
    forall i, j | 0 <= i < j < |rows| ensures rows[i].grant.scopeId != rows[j].grant.scopeId {
      PathAgain(c, scopes, id, rows, i);
      PathAgain(c, scopes, id, rows, j);
      if rows[i].grant.scopeId == rows[j].grant.scopeId {
        OnePath(c, scopes, rows[i].grant.scopeId, rows[i..], rows[j..]);
      }
    }
  }

  ghost predicate Linked(c: Contracts, rows: seq<ScopeRecord>) {
    forall i :: 0 <= i < |rows| - 1 ==> c.childOf(rows[i].grant, rows[i + 1].grant).None?
  }

  lemma {:induction false} LinksExact(c: Contracts, rows: seq<ScopeRecord>)
    ensures Links(c, rows).None? <==> Linked(c, rows)
    decreases |rows|
  {
    if |rows| >= 2 {
      LinksExact(c, rows[1..]);
      assert forall i :: 1 <= i < |rows| ==> rows[i] == rows[1..][i - 1];
      if Linked(c, rows[1..]) && c.childOf(rows[0].grant, rows[1].grant).None? {
        forall i | 0 <= i < |rows| - 1 ensures c.childOf(rows[i].grant, rows[i + 1].grant).None? {
          if i > 0 { assert rows[i] == rows[1..][i - 1] && rows[i + 1] == rows[1..][i]; }
        }
      }
    }
  }

  /** On any table the walk returns exactly a readable path to a root, at most nine long and linked by narrowing. */
  lemma ChainExact(c: Contracts, scopes: Scopes, id: string, rows: seq<ScopeRecord>)
    ensures Chain(c, scopes, id) == Ok(rows) <==> Path(c, scopes, id, rows) && |rows| <= 9 && Linked(c, rows)
  {
    LinksExact(c, rows);
    if Chain(c, scopes, id) == Ok(rows) {
      WalkPath(c, scopes, id, []);
      assert rows[0..] == rows;
    }
    if Path(c, scopes, id, rows) && |rows| <= 9 {
      PathDistinct(c, scopes, id, rows);
      PathWalk(c, scopes, id, [], rows);
      assert [] + rows == rows;
    }
  }

  /** The ancestry is active exactly when the walk succeeds and every row is unrevoked and inside its window. */
  lemma ActiveExact(c: Contracts, scopes: Scopes, id: string, now: int)
    ensures var r, chain := ActiveChain(c, scopes, id, now), Chain(c, scopes, id);
      if chain.Err? then r == Err(chain.error)
      else if forall i :: 0 <= i < |chain.value| ==>
          && chain.value[i].revokedAt.None?
          && chain.value[i].grant.notBefore <= now < chain.value[i].grant.expiresAt
      then r == chain
      else r == Err(Inactive)
  {
    var chain := Chain(c, scopes, id);
    if chain.Ok? {
      assert forall i :: 0 <= i < |chain.value| ==>
        (Active(chain.value[i], now) <==>
          && chain.value[i].revokedAt.None?
          && chain.value[i].grant.notBefore <= now < chain.value[i].grant.expiresAt);
    }
  }

  /** On any table a row or an ancestry that does not read is never acted on: its own error is the answer. */
  lemma UnreadableRefused(c: Contracts, l: Ledger, id: string, e: StoreError, guard: Guard, digest: string,
                          outcome: Outcome, now: int)
    ensures LoadAction(c, l, id) == Err(e) ==>
      ClaimTx(c, l, id, digest, guard, now) == Tx(l, Err(e)) && FinishTx(c, l, id, outcome, now) == Tx(l, Err(e))
    ensures LoadScope(c, l.scopes, id) == Err(e) ==> RevokeTx(c, l, id, now) == Tx(l, Err(e))
    ensures LoadScope(c, l.scopes, id) == Err(e) && e != NotFound ==>
      forall g: ScopeGrant :: g.scopeId == id ==> IssueTx(c, l, g, guard, now) == Tx(l, Err(e))
  {
  }

  /** No call changes a ledger whose owner is invalid, whose time is negative or whose time is ahead of the call. */
  lemma StaleRefused(c: Contracts, l: Ledger, call: Call)
    ensures !c.ownerOk(l.owner) ==> Mutate(c, l, call) == Tx(l, Err(Validation(Invalid)))
    ensures c.ownerOk(l.owner) && l.lastSeen < 0 ==> Mutate(c, l, call) == Tx(l, Err(Corrupt))
    ensures c.ownerOk(l.owner) && l.lastSeen >= 0 ==>
      (call.now < l.lastSeen ==> Mutate(c, l, call) == Tx(l, Err(ClockRollback)))
      && (call.now >= l.lastSeen ==> Mutate(c, l, call).ledger.lastSeen == call.now)
  {
  }

  /** A new ledger holds nothing and takes any call of its owner that is not dated before time zero. */
  lemma FreshExact(c: Contracts, owner: AuthorityOwner, id: string, call: Call)
    requires c.ownerOk(owner)
    ensures LoadScope(c, Fresh(owner).scopes, id) == Err(NotFound) && LoadAction(c, Fresh(owner), id) == Err(NotFound)
    ensures Fresh(owner).owner == owner && Fresh(owner).events == []
    ensures Mutate(c, Fresh(owner), call).ledger.lastSeen == call.now <==> call.now >= 0
  {
  }

  /** Where every row reads and every parent is stored, only a cycle or a line too long stops the walk: corruption. */
  lemma {:induction false} WalkCorrupt(c: Contracts, scopes: Scopes, id: string, chain: seq<ScopeRecord>)
    requires forall x :: x in scopes ==>
      Readable(c, scopes, x) && (scopes[x].grant.parentId.Some? ==> scopes[x].grant.parentId.value in scopes)
    requires id in scopes
    ensures Walk(c, scopes, id, chain).Err? ==> Walk(c, scopes, id, chain).error == Corrupt
    decreases MAX_DEPTH + 1 - |chain|
  {
    if |chain| <= MAX_DEPTH && !Visited(chain, id) {
      LoadScopeExact(c, scopes, id);
      if scopes[id].grant.parentId.Some? {
        WalkCorrupt(c, scopes, scopes[id].grant.parentId.value, chain + [scopes[id]]);
      }
    }
  }
}
