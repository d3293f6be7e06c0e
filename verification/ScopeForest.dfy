/** The ancestry of a scope: the ledger's bounded walk, and the line of ancestors it must compute. */
module ScopeForest {
  import opened Wrappers
  import opened ScopeTypes

  type Scopes = map<string, ScopeRecord>

  // ------------------------------------------------------------------ the walk of the ledger

  /** A row is returned only if it is stored under its own id, canonical, and carries its own digest. */
  function LoadScope(c: Contracts, scopes: Scopes, id: string): Result<ScopeRecord, StoreError> {
    if id !in scopes then Err(NotFound)
    else
      var r := scopes[id];
      if r.grant.scopeId != id then Err(Corrupt)
      else
        match c.canonGrant(r.grant)
        case Err(e) => Err(Validation(e))
        case Ok(g) => if g != r.grant || r.digest != c.grantDigest(r.grant) then Err(Corrupt) else Ok(r)
  }

  predicate Visited(chain: seq<ScopeRecord>, id: string) {
    exists i :: 0 <= i < |chain| && chain[i].grant.scopeId == id
  }

  /** Follow parent links upward, refusing a repeated scope and more than MAX_DEPTH + 1 of them. */
  function Walk(c: Contracts, scopes: Scopes, id: string, chain: seq<ScopeRecord>): (r: Result<seq<ScopeRecord>,
                StoreError>)
    ensures r.Ok? ==> |r.value| > |chain|
    decreases MAX_DEPTH + 1 - |chain|
  {
    if |chain| > MAX_DEPTH || Visited(chain, id) then Err(Corrupt)
    else
      match LoadScope(c, scopes, id)
      case Err(e) => Err(e)
      case Ok(r) =>
        match r.grant.parentId
        case None => Ok(chain + [r])
        case Some(p) => Walk(c, scopes, p, chain + [r])
  }

  /** The first neighbouring pair that is not a narrowing decides the error. */
  function Links(c: Contracts, chain: seq<ScopeRecord>): Option<ScopeError> {
    if |chain| < 2 then None
    else if c.childOf(chain[0].grant, chain[1].grant).Some? then c.childOf(chain[0].grant, chain[1].grant)
    else Links(c, chain[1..])
  }

  function Chain(c: Contracts, scopes: Scopes, id: string): (r: Result<seq<ScopeRecord>, StoreError>)
    ensures r.Ok? ==> |r.value| > 0
  {
    match Walk(c, scopes, id, [])
    case Err(e) => Err(e)
    case Ok(chain) => if Links(c, chain).Some? then Err(Validation(Links(c, chain).value)) else Ok(chain)
  }

  predicate Active(r: ScopeRecord, now: int) {
    r.revokedAt.None? && r.grant.notBefore <= now < r.grant.expiresAt
  }

  function ActiveChain(c: Contracts, scopes: Scopes, id: string, now: int): (r: Result<seq<ScopeRecord>, StoreError>)
    ensures r.Ok? ==> |r.value| > 0
  {
    match Chain(c, scopes, id)
    case Err(e) => Err(e)
    case Ok(chain) => if forall i :: 0 <= i < |chain| ==> Active(chain[i], now) then Ok(chain) else Err(Inactive)
  }

  // ------------------------------------------------------------------ the line of ancestors

  /** Stored rows are canonical and every parent is present and strictly wider. */
  ghost predicate SoundScope(c: Contracts, scopes: Scopes, id: string)
    requires id in scopes
  {
    var g := scopes[id].grant;
    && g.scopeId == id
    && c.canonGrant(g) == Ok(g)
    && scopes[id].digest == c.grantDigest(g)
    && (g.parentId.Some? ==> g.parentId.value in scopes && c.childOf(g, scopes[g.parentId.value].grant).None?)
  }

  ghost predicate SoundScopes(c: Contracts, scopes: Scopes) {
    forall id :: id in scopes ==> SoundScope(c, scopes, id)
  }

  /** Parent links stay inside the table and allow strictly more delegations, so they cannot cycle. */
  ghost predicate Forest(scopes: Scopes) {
    forall id :: id in scopes ==>
      && scopes[id].grant.scopeId == id
      && scopes[id].grant.delegationsRemaining <= MAX_DEPTH
      && (scopes[id].grant.parentId.Some? ==>
            && scopes[id].grant.parentId.value in scopes
            && scopes[id].grant.delegationsRemaining
               < scopes[scopes[id].grant.parentId.value].grant.delegationsRemaining)
  }

  lemma SoundForest(c: Contracts, scopes: Scopes)
    requires Lawful(c) && SoundScopes(c, scopes)
    ensures Forest(scopes)
  {
    forall id | id in scopes
      ensures scopes[id].grant.delegationsRemaining <= MAX_DEPTH
    {
      assert SoundScope(c, scopes, id);
    }
  }

  /** A scope and its ancestors, nearest first. */
  ghost function Line(scopes: Scopes, id: string): (ids: seq<string>)
    requires Forest(scopes) && id in scopes
    ensures 0 < |ids| <= MAX_DEPTH + 1 - scopes[id].grant.delegationsRemaining
    ensures ids[0] == id && forall i :: 0 <= i < |ids| ==> ids[i] in scopes
    decreases MAX_DEPTH - scopes[id].grant.delegationsRemaining
  {
    match scopes[id].grant.parentId
    case None => [id]
    case Some(p) => [id] + Line(scopes, p)
  }

  ghost predicate Above(scopes: Scopes, anc: string, id: string)
    requires Forest(scopes)
  {
    id in scopes && anc in Line(scopes, id)
  }

  lemma LineParent(scopes: Scopes, id: string)
    requires Forest(scopes) && id in scopes && scopes[id].grant.parentId.Some?
    ensures Line(scopes, id) == [id] + Line(scopes, scopes[id].grant.parentId.value)
    ensures forall a :: Above(scopes, a, id) <==> a == id || Above(scopes, a, scopes[id].grant.parentId.value)
  {
  }

  lemma AboveSelf(scopes: Scopes, id: string)
    requires Forest(scopes) && id in scopes
    ensures Above(scopes, id, id)
  {
    assert Line(scopes, id)[0] == id;
  }

  /** Ancestors of an ancestor are ancestors. */
  lemma {:induction false} AboveTransitive(scopes: Scopes, a: string, b: string, id: string)
    requires Forest(scopes) && Above(scopes, a, b) && Above(scopes, b, id)
    ensures Above(scopes, a, id)
    decreases MAX_DEPTH - scopes[id].grant.delegationsRemaining
  {
    if b != id {
      LineParent(scopes, id);
      AboveTransitive(scopes, a, b, scopes[id].grant.parentId.value);
    }
  }

  /** A proper ancestor allows strictly more delegations: no scope is its own proper ancestor. */
  lemma {:induction false} AboveDelegations(scopes: Scopes, a: string, id: string)
    requires Forest(scopes) && Above(scopes, a, id)
    ensures a in scopes
    ensures a == id || scopes[id].grant.delegationsRemaining < scopes[a].grant.delegationsRemaining
    decreases MAX_DEPTH - scopes[id].grant.delegationsRemaining
  {
    if a != id {
      LineParent(scopes, id);
      AboveDelegations(scopes, a, scopes[id].grant.parentId.value);
    }
  }

  /** Lines depend on the grants alone, so they survive charging, revocation and new scopes. */
  ghost predicate SameGrants(before: Scopes, after: Scopes) {
    forall id :: id in before ==> id in after && after[id].grant == before[id].grant
  }

  lemma {:induction false} LineStable(before: Scopes, after: Scopes, id: string)
    requires Forest(before) && Forest(after) && SameGrants(before, after) && id in before
    ensures Line(after, id) == Line(before, id)
    decreases MAX_DEPTH - before[id].grant.delegationsRemaining
  {
    if before[id].grant.parentId.Some? {
      LineStable(before, after, before[id].grant.parentId.value);
    }
  }

  lemma LinesStable(before: Scopes, after: Scopes)
    requires Forest(before) && Forest(after) && SameGrants(before, after)
    ensures forall id :: id in before ==> Line(after, id) == Line(before, id)
    ensures forall a, id :: id in before ==> (Above(after, a, id) <==> Above(before, a, id))
  {
    forall id | id in before ensures Line(after, id) == Line(before, id) {
      LineStable(before, after, id);
    }
  }

  ghost function Rows(scopes: Scopes, ids: seq<string>): (rows: seq<ScopeRecord>)
    requires forall i :: 0 <= i < |ids| ==> ids[i] in scopes
    ensures |rows| == |ids| && forall i :: 0 <= i < |ids| ==> rows[i] == scopes[ids[i]]
  {
    seq(|ids|, i requires 0 <= i < |ids| => scopes[ids[i]])
  }

  lemma LoadSound(c: Contracts, scopes: Scopes, id: string)
    requires id in scopes && SoundScope(c, scopes, id)
    ensures LoadScope(c, scopes, id) == Ok(scopes[id])
  {
  }

  /** Rows already walked are stored rows below `id`, so `id` is not among them. */
  ghost predicate Below(scopes: Scopes, chain: seq<ScopeRecord>, id: string)
    requires id in scopes
  {
    forall i :: 0 <= i < |chain| ==>
      && chain[i].grant.scopeId in scopes && scopes[chain[i].grant.scopeId] == chain[i]
      && chain[i].grant.delegationsRemaining < scopes[id].grant.delegationsRemaining
  }

  lemma NotVisited(scopes: Scopes, chain: seq<ScopeRecord>, id: string)
    requires id in scopes && Below(scopes, chain, id)
    ensures !Visited(chain, id)
  {
  }

  /** The walk never trips its cycle or depth guard on a sound table: it lists exactly the line. */
  lemma {:induction false} WalkIsLine(c: Contracts, scopes: Scopes, id: string, chain: seq<ScopeRecord>)
    requires SoundScopes(c, scopes) && Forest(scopes) && id in scopes
    requires |chain| + |Line(scopes, id)| <= MAX_DEPTH + 1 && Below(scopes, chain, id)
    ensures Walk(c, scopes, id, chain) == Ok(chain + Rows(scopes, Line(scopes, id)))
    decreases |Line(scopes, id)|
  {
    assert SoundScope(c, scopes, id);
    LoadSound(c, scopes, id);
    NotVisited(scopes, chain, id);
    var r := scopes[id];
    match r.grant.parentId
    case None =>
      assert Rows(scopes, Line(scopes, id)) == [r];
    case Some(p) =>
      assert Walk(c, scopes, id, chain) == Walk(c, scopes, p, chain + [r]);
      assert Below(scopes, chain + [r], p);
      WalkIsLine(c, scopes, p, chain + [r]);
      RowsCons(scopes, id, p, chain);
  }

  lemma RowsFirst(scopes: Scopes, id: string, ids: seq<string>)
    requires id in scopes && forall i :: 0 <= i < |ids| ==> ids[i] in scopes
    ensures forall i :: 0 <= i < |[id] + ids| ==> ([id] + ids)[i] in scopes
    ensures Rows(scopes, [id] + ids) == [scopes[id]] + Rows(scopes, ids)
  {
  }

  lemma RowsCons(scopes: Scopes, id: string, p: string, chain: seq<ScopeRecord>)
    requires Forest(scopes) && id in scopes && scopes[id].grant.parentId == Some(p)
    ensures chain + [scopes[id]] + Rows(scopes, Line(scopes, p)) == chain + Rows(scopes, Line(scopes, id))
  {
    LineParent(scopes, id);
    RowsFirst(scopes, id, Line(scopes, p));
  }

  lemma {:induction false} LinksHold(c: Contracts, scopes: Scopes, id: string)
    requires SoundScopes(c, scopes) && Forest(scopes) && id in scopes
    ensures Links(c, Rows(scopes, Line(scopes, id))).None?
    decreases |Line(scopes, id)|
  {
    assert SoundScope(c, scopes, id);
    if scopes[id].grant.parentId.Some? {
      var p := scopes[id].grant.parentId.value;
      var rows := Rows(scopes, Line(scopes, id));
      assert rows[1..] == Rows(scopes, Line(scopes, p));
      assert Line(scopes, p)[0] == p;
      LinksHold(c, scopes, p);
    }
  }

  /** On a sound table `chain` never fails for a stored scope: it returns its line of ancestors. */
  lemma ChainIsLine(c: Contracts, scopes: Scopes, id: string)
    requires Lawful(c) && SoundScopes(c, scopes)
    ensures Forest(scopes)
    ensures id in scopes ==> Chain(c, scopes, id) == Ok(Rows(scopes, Line(scopes, id)))
    ensures id !in scopes ==> Chain(c, scopes, id) == Err(NotFound)
  {
    SoundForest(c, scopes);
    if id in scopes {
      WalkIsLine(c, scopes, id, []);
      assert [] + Rows(scopes, Line(scopes, id)) == Rows(scopes, Line(scopes, id));
      LinksHold(c, scopes, id);
    }
  }

  /** Membership in an active chain, read off the line. */
  lemma ActiveIsLine(c: Contracts, scopes: Scopes, id: string, now: int)
    requires Lawful(c) && SoundScopes(c, scopes)
    ensures Forest(scopes)
    ensures id in scopes && (forall a :: Above(scopes, a, id) ==> Active(scopes[a], now)) ==>
      ActiveChain(c, scopes, id, now) == Ok(Rows(scopes, Line(scopes, id)))
    ensures id in scopes && !(forall a :: Above(scopes, a, id) ==> Active(scopes[a], now)) ==>
      ActiveChain(c, scopes, id, now) == Err(Inactive)
    ensures id !in scopes ==> ActiveChain(c, scopes, id, now) == Err(NotFound)
  {
    ChainIsLine(c, scopes, id);
    if id in scopes {
      var ids := Line(scopes, id);
      var rows := Rows(scopes, ids);
      if forall a :: Above(scopes, a, id) ==> Active(scopes[a], now) {
        forall i | 0 <= i < |rows| ensures Active(rows[i], now) {
          assert Above(scopes, ids[i], id);
        }
      } else {
        var a :| Above(scopes, a, id) && !Active(scopes[a], now);
        var i :| 0 <= i < |ids| && ids[i] == a;
        assert !Active(rows[i], now);
      }
    }
  }

  /** Narrowing composes along a line, whatever its length. */
  lemma {:induction false} LineNarrows(c: Contracts, scopes: Scopes, a: string, id: string)
    requires Lawful(c) && SoundScopes(c, scopes) && Forest(scopes) && Above(scopes, a, id)
    ensures NoWider(scopes[id].grant, scopes[a].grant)
    decreases |Line(scopes, id)|
  {
    if a != id {
      assert SoundScope(c, scopes, id);
      LineParent(scopes, id);
      LineNarrows(c, scopes, a, scopes[id].grant.parentId.value);
    }
  }
}
