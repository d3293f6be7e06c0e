/** The finite authority contracts: canonical forms, narrowing of a child, admission of an action. */
module ScopeContracts {
  import opened Wrappers
  import opened Order
  import opened ScopeTypes

  /** Serialised sizes and digests. Every theorem holds whatever they return. */
  datatype Codec = Codec(
    grantBytes: ScopeGrant -> nat, actionBytes: PreparedAction -> nat,
    grantHash: ScopeGrant -> string, actionHash: PreparedAction -> string)

  predicate IdChar(c: char) {
    'a' <= c <= 'z' || 'A' <= c <= 'Z' || '0' <= c <= '9' || c in {'_', '.', ':', '-', '/'}
  }

  predicate IsId(s: string) {
    0 < |s| <= 256 && forall i :: 0 <= i < |s| ==> IdChar(s[i])
  }

  function Utf8Length(s: string): nat {
    if s == "" then 0
    else
      (var c := s[0] as int; if c < 0x80 then 1 else if c < 0x800 then 2 else if c < 0x10000 then 3 else 4)
      + Utf8Length(s[1..])
  }

  predicate IsControl(c: char) {
    (c as int) < 0x20 || 0x7f <= (c as int) <= 0x9f
  }

  predicate IsBounded(s: string) {
    Utf8Length(s) <= 1024 && forall i :: 0 <= i < |s| ==> !IsControl(s[i])
  }

  predicate IsDigest(s: string) {
    |s| == 64 && forall i :: 0 <= i < |s| ==> '0' <= s[i] <= '9' || 'a' <= s[i] <= 'f'
  }

  predicate OwnerOk(o: AuthorityOwner) {
    IsId(o.tenantId) && IsId(o.brokerId) && IsId(o.generation)
  }

  function Same(s: string): string { s }
  function FieldKey(f: FieldConstraint): string { f.field }
  function ValueKey(f: FieldValue): string { f.field }
  function CheckKey(c: EvaluatorRequirement): string { c.checkId }

  predicate FieldShape(f: FieldConstraint) {
    IsId(f.field) && 0 < |f.allowedValues| <= MAX_VALUES
    && (forall v :: v in f.allowedValues ==> IsBounded(v))
  }

  predicate IdentityShape(g: ScopeGrant) {
    && OwnerOk(g.owner)
    && IsId(g.scopeId) && IsId(g.rootId) && IsId(g.issuer) && IsId(g.subject) && IsId(g.operation)
    && (match g.parentId
        case Some(p) => IsId(p) && p != g.scopeId && g.rootId != g.scopeId
        case None => g.rootId == g.scopeId)
    && IsDigest(g.providerProfileDigest) && IsDigest(g.issuanceReceiptDigest)
    && IsDigest(g.requirements.policyDigest)
  }

  predicate LimitShape(g: ScopeGrant) {
    && 0 <= g.notBefore < g.expiresAt
    && g.delegationsRemaining <= MAX_DEPTH
    && 0 < g.maxChargedAttempts <= I64_MAX
    && 0 < g.maxDistinctResources <= |g.resources| <= MAX_RESOURCES
    && 0 < |g.fields| <= MAX_FIELDS
    && |g.requirements.evaluatorChecks| <= MAX_CHECKS
  }

  predicate ContentShape(g: ScopeGrant) {
    && (forall r :: r in g.resources ==> IsId(r))
    && (forall f :: f in g.fields ==> FieldShape(f))
    && (forall k :: k in g.requirements.evaluatorChecks ==> IsId(k.checkId) && IsDigest(k.contractDigest))
  }

  function SortField(f: FieldConstraint): FieldConstraint {
    f.(allowedValues := SortBy(Same, f.allowedValues))
  }

  function SortFields(fs: seq<FieldConstraint>): (r: seq<FieldConstraint>)
    ensures |r| == |fs| && forall i :: 0 <= i < |fs| ==> r[i] == SortField(fs[i])
  {
    seq(|fs|, i requires 0 <= i < |fs| => SortField(fs[i]))
  }

  function Ordered(g: ScopeGrant): ScopeGrant {
    g.(resources := SortBy(Same, g.resources),
       fields := SortBy(FieldKey, SortFields(g.fields)),
       requirements := g.requirements.(evaluatorChecks := SortBy(CheckKey, g.requirements.evaluatorChecks)))
  }

  predicate StrictlyOrdered(g: ScopeGrant) {
    && RisingBy(Same, g.resources)
    && RisingBy(FieldKey, g.fields)
    && (forall f :: f in g.fields ==> RisingBy(Same, f.allowedValues))
    && RisingBy(CheckKey, g.requirements.evaluatorChecks)
  }

  function CanonGrant(codec: Codec, g: ScopeGrant): Result<ScopeGrant, ScopeError> {
    if g.schemaVersion != VERSION then Err(Version)
    else if !IdentityShape(g) || !LimitShape(g) || !ContentShape(g) then Err(Invalid)
    else if !StrictlyOrdered(Ordered(g)) || codec.grantBytes(Ordered(g)) > MAX_BYTES then Err(Invalid)
    else Ok(Ordered(g))
  }

  /** Narrowing on canonical forms: each clause is one way a child could widen its parent. */
  predicate Subset(child: ScopeGrant, parent: ScopeGrant) {
    && child.parentId == Some(parent.scopeId)
    && child.rootId == parent.rootId
    && child.owner == parent.owner
    && child.issuer == parent.subject
    && child.operation == parent.operation
    && child.providerProfileDigest == parent.providerProfileDigest
    && child.notBefore >= parent.notBefore
    && child.expiresAt <= parent.expiresAt
    && parent.delegationsRemaining > 0
    && child.delegationsRemaining < parent.delegationsRemaining
    && child.maxChargedAttempts <= parent.maxChargedAttempts
    && child.maxDistinctResources <= parent.maxDistinctResources
    && child.requirements.policyDigest == parent.requirements.policyDigest
    && (parent.requirements.minimumApproval.ExactAction? ==> child.requirements.minimumApproval.ExactAction?)
    && (forall r :: r in child.resources ==> r in parent.resources)
    && (forall f :: f in child.fields ==>
          exists p :: p in parent.fields && p.field == f.field
                      && forall v :: v in f.allowedValues ==> v in p.allowedValues)
    && (forall k :: k in parent.requirements.evaluatorChecks ==> k in child.requirements.evaluatorChecks)
  }

  function ChildOf(codec: Codec, child: ScopeGrant, parent: ScopeGrant): Option<ScopeError> {
    match CanonGrant(codec, child)
    case Err(e) => Some(e)
    case Ok(c) =>
      match CanonGrant(codec, parent)
      case Err(e) => Some(e)
      case Ok(p) => if Subset(c, p) then None else Some(NotSubset)
  }

  predicate ActionShape(a: PreparedAction) {
    && OwnerOk(a.owner)
    && IsId(a.actionId) && IsId(a.requestId) && IsId(a.scopeId) && IsId(a.subject)
    && IsId(a.operation) && IsId(a.resource)
    && IsBounded(a.resourceVersion) && a.resourceVersion != ""
    && 0 < |a.fields| <= MAX_FIELDS
    && IsDigest(a.scopeDigest) && IsDigest(a.providerProfileDigest) && IsDigest(a.evidenceDigest)
    && (forall f :: f in a.fields ==> IsId(f.field) && IsBounded(f.value))
  }

  function OrderedAction(a: PreparedAction): PreparedAction {
    a.(fields := SortBy(ValueKey, a.fields))
  }

  function CanonAction(codec: Codec, a: PreparedAction): Result<PreparedAction, ScopeError> {
    if a.schemaVersion != VERSION then Err(Version)
    else
      var r := OrderedAction(a);
      if !ActionShape(a) || !RisingBy(ValueKey, r.fields) || codec.actionBytes(r) > MAX_BYTES then Err(Invalid)
      else Ok(r)
  }

  predicate InScope(codec: Codec, a: PreparedAction, g: ScopeGrant) {
    && a.scopeId == g.scopeId
    && a.scopeDigest == codec.grantHash(g)
    && a.owner == g.owner
    && a.subject == g.subject
    && a.operation == g.operation
    && a.providerProfileDigest == g.providerProfileDigest
    && a.resource in g.resources
    && (forall f :: f in a.fields ==>
          exists s :: s in g.fields && s.field == f.field && f.value in s.allowedValues)
  }

  function ActionFits(codec: Codec, a: PreparedAction, g: ScopeGrant): Option<ScopeError> {
    match CanonAction(codec, a)
    case Err(e) => Some(e)
    case Ok(ca) =>
      match CanonGrant(codec, g)
      case Err(e) => Some(e)
      case Ok(cg) => if InScope(codec, ca, cg) then None else Some(OutOfScope)
  }

  predicate ReviewShape(r: ReviewBinding) {
    && IsId(r.caseId) && IsId(r.actionId) && IsId(r.roundId)
    && IsDigest(r.actionDigest) && IsDigest(r.scopeDigest) && IsDigest(r.evidenceDigest)
    && IsDigest(r.policyDigest) && IsDigest(r.decisionReceiptDigest)
    && r.caseRevision != 0 && r.expiresAt > 0
  }

  function ReviewBinds(e: AdmissionEvidence, r: ReviewBinding, g: ScopeGrant, a: PreparedAction,
                       now: int): Option<ScopeError> {
    if r.schemaVersion != VERSION then Some(Version)
    else if !ReviewShape(r) then Some(Invalid)
    else if
      || r.actionId != a.actionId || r.actionDigest != e.actionDigest || r.scopeDigest != e.scopeDigest
      || r.evidenceDigest != a.evidenceDigest || r.policyDigest != e.policyDigest
      || r.expiresAt <= now || r.expiresAt > g.expiresAt then Some(Evidence)
    else None
  }

  /** The first receipt that is malformed or answers another action decides the error. */
  function ReceiptsBind(e: AdmissionEvidence, a: PreparedAction, receipts: seq<EvaluatorReceipt>): Option<ScopeError> {
    if receipts == [] then None
    else
      var r := receipts[0];
      if !IsId(r.checkId) || !IsDigest(r.contractDigest) || !IsDigest(r.receiptDigest) then Some(Invalid)
      else if r.actionDigest != e.actionDigest || r.evidenceDigest != a.evidenceDigest then Some(Evidence)
      else ReceiptsBind(e, a, receipts[1..])
  }

  function EvaluatorsFit(e: AdmissionEvidence, g: ScopeGrant, a: PreparedAction): Option<ScopeError> {
    if exists i, j :: 0 <= i < j < |e.evaluators| && e.evaluators[i].checkId == e.evaluators[j].checkId then
      Some(Invalid)
    else if ReceiptsBind(e, a, e.evaluators).Some? then ReceiptsBind(e, a, e.evaluators)
    else if forall k :: k in g.requirements.evaluatorChecks ==>
        exists r :: r in e.evaluators && r.checkId == k.checkId && r.contractDigest == k.contractDigest then None
    else Some(Evidence)
  }

  function Admits(codec: Codec, e: AdmissionEvidence, g: ScopeGrant, a: PreparedAction, now: int): Option<ScopeError> {
    if e.schemaVersion != VERSION then Some(Version)
    else if ActionFits(codec, a, g).Some? then ActionFits(codec, a, g)
    else if
      || e.policyDigest != g.requirements.policyDigest
      || e.scopeDigest != codec.grantHash(Ordered(g))
      || e.actionDigest != codec.actionHash(OrderedAction(a))
      || e.authorityRevision == 0 || e.evaluatedAt < 0 || e.evaluatedAt > now
      || e.expiresAt <= now || e.expiresAt > g.expiresAt || |e.evaluators| > MAX_CHECKS then Some(Evidence)
    else
      var review :=
        if e.review.Some? then ReviewBinds(e, e.review.value, g, a, now)
        else if g.requirements.minimumApproval.ExactAction? then Some(Evidence)
        else None;
      if review.Some? then review else EvaluatorsFit(e, g, a)
  }

  /** The contract checks as the ledger uses them. */
  function Standard(codec: Codec): Contracts {
    Contracts(
      OwnerOk,
      g => CanonGrant(codec, g),
      g => codec.grantHash(Ordered(g)),
      (child, parent) => ChildOf(codec, child, parent),
      a => CanonAction(codec, a),
      a => codec.actionHash(OrderedAction(a)),
      (e, g, a, now) => Admits(codec, e, g, a, now))
  }

  // ------------------------------------------------------------------ canonical forms

  lemma OrderedFixed(g: ScopeGrant)
    requires StrictlyOrdered(g)
    ensures Ordered(g) == g
  {
    SortRising(Same, g.resources);
    SortRising(CheckKey, g.requirements.evaluatorChecks);
    forall i | 0 <= i < |g.fields| ensures SortField(g.fields[i]) == g.fields[i] {
      assert g.fields[i] in g.fields;
      SortRising(Same, g.fields[i].allowedValues);
    }
    assert SortFields(g.fields) == g.fields;
    SortRising(FieldKey, g.fields);
  }

  lemma OrderedField(g: ScopeGrant, f: FieldConstraint)
    ensures f in Ordered(g).fields <==> exists i :: 0 <= i < |g.fields| && f == SortField(g.fields[i])
  {
    SortMembers(FieldKey, SortFields(g.fields), f);
  }

  lemma OrderedLengths(g: ScopeGrant)
    ensures |Ordered(g).resources| == |g.resources| && |Ordered(g).fields| == |g.fields|
    ensures |Ordered(g).requirements.evaluatorChecks| == |g.requirements.evaluatorChecks|
  {
    SortPermutes(Same, g.resources);
    SortPermutes(FieldKey, SortFields(g.fields));
    SortPermutes(CheckKey, g.requirements.evaluatorChecks);
    assert |multiset(Ordered(g).resources)| == |multiset(g.resources)|;
    assert |multiset(Ordered(g).fields)| == |multiset(SortFields(g.fields))|;
    assert |multiset(Ordered(g).requirements.evaluatorChecks)| == |multiset(g.requirements.evaluatorChecks)|;
  }

  lemma SortFieldShape(f: FieldConstraint)
    requires FieldShape(f)
    ensures FieldShape(SortField(f))
  {
    SortPermutes(Same, f.allowedValues);
    assert |multiset(SortField(f).allowedValues)| == |multiset(f.allowedValues)|;
    forall v | v in SortField(f).allowedValues ensures IsBounded(v) {
      SortMembers(Same, f.allowedValues, v);
    }
  }

  lemma OrderedContent(g: ScopeGrant)
    requires ContentShape(g)
    ensures ContentShape(Ordered(g))
  {
    var o := Ordered(g);
    forall r | r in o.resources ensures IsId(r) { SortMembers(Same, g.resources, r); }
    forall k | k in o.requirements.evaluatorChecks ensures IsId(k.checkId) && IsDigest(k.contractDigest) {
      SortMembers(CheckKey, g.requirements.evaluatorChecks, k);
    }
    forall f | f in o.fields ensures FieldShape(f) {
      OrderedField(g, f);
      var i :| 0 <= i < |g.fields| && f == SortField(g.fields[i]);
      assert g.fields[i] in g.fields;
      SortFieldShape(g.fields[i]);
    }
  }

  lemma OrderedShapes(g: ScopeGrant)
    requires IdentityShape(g) && LimitShape(g)
    ensures IdentityShape(Ordered(g)) && LimitShape(Ordered(g))
  {
    OrderedLengths(g);
  }

  /** Canonicalising a canonical grant gives it back, so stored grants compare equal to themselves. */
  lemma CanonGrantIdempotent(codec: Codec, g: ScopeGrant)
    requires CanonGrant(codec, g).Ok?
    ensures CanonGrant(codec, CanonGrant(codec, g).value) == CanonGrant(codec, g)
  {
    var o := Ordered(g);
    OrderedShapes(g);
    OrderedContent(g);
    assert StrictlyOrdered(o);
    OrderedFixed(o);
    assert CanonGrant(codec, o) == Ok(o);
  }

  lemma OrderedActionShape(a: PreparedAction)
    requires ActionShape(a)
    ensures ActionShape(OrderedAction(a))
  {
    var r := OrderedAction(a);
    SortPermutes(ValueKey, a.fields);
    assert |multiset(r.fields)| == |multiset(a.fields)|;
    forall f | f in r.fields ensures IsId(f.field) && IsBounded(f.value) { SortMembers(ValueKey, a.fields, f); }
  }

  lemma OrderedActionFixed(a: PreparedAction)
    requires RisingBy(ValueKey, a.fields)
    ensures OrderedAction(a) == a
  {
    SortRising(ValueKey, a.fields);
  }

  lemma CanonActionIdempotent(codec: Codec, a: PreparedAction)
    requires CanonAction(codec, a).Ok?
    ensures CanonAction(codec, CanonAction(codec, a).value) == CanonAction(codec, a)
  {
    OrderedActionShape(a);
    OrderedActionFixed(OrderedAction(a));
  }

  lemma OrderedAllows(g: ScopeGrant, field: string, value: string)
    ensures AllowsField(Ordered(g).fields, field, value) <==> AllowsField(g.fields, field, value)
  {
    var o := Ordered(g);
    if AllowsField(o.fields, field, value) {
      var i :| 0 <= i < |o.fields| && o.fields[i].field == field && value in o.fields[i].allowedValues;
      OrderedField(g, o.fields[i]);
      var k :| 0 <= k < |g.fields| && o.fields[i] == SortField(g.fields[k]);
      SortMembers(Same, g.fields[k].allowedValues, value);
    }
    if AllowsField(g.fields, field, value) {
      var k :| 0 <= k < |g.fields| && g.fields[k].field == field && value in g.fields[k].allowedValues;
      SortMembers(Same, g.fields[k].allowedValues, value);
      OrderedField(g, SortField(g.fields[k]));
      var i :| 0 <= i < |o.fields| && o.fields[i] == SortField(g.fields[k]);
    }
  }

  // ------------------------------------------------------------------ the laws

  /** A child accepted under a parent keeps no authority the parent lacks. */
  lemma ChildNarrows(codec: Codec, child: ScopeGrant, parent: ScopeGrant)
    requires ChildOf(codec, child, parent).None?
    ensures child.parentId == Some(parent.scopeId)
    ensures child.delegationsRemaining < parent.delegationsRemaining
    ensures NoWider(child, parent)
  {
    forall r | r in child.resources ensures r in parent.resources {
      SortMembers(Same, child.resources, r);
      SortMembers(Same, parent.resources, r);
    }
    forall f, v | AllowsField(child.fields, f, v) ensures AllowsField(parent.fields, f, v) {
      OrderedAllows(child, f, v);
      OrderedAllows(parent, f, v);
      SubsetAllows(Ordered(child), Ordered(parent), f, v);
    }
  }

  lemma SubsetAllows(child: ScopeGrant, parent: ScopeGrant, f: string, v: string)
    requires Subset(child, parent) && AllowsField(child.fields, f, v)
    ensures AllowsField(parent.fields, f, v)
  {
    var i :| 0 <= i < |child.fields| && child.fields[i].field == f && v in child.fields[i].allowedValues;
    assert child.fields[i] in child.fields;
    var p :| p in parent.fields && p.field == f
      && forall w :: w in child.fields[i].allowedValues ==> w in p.allowedValues;
  }

  /** Admission evidence is accepted only for an action inside the grant, and only while it is fresh. */
  lemma AdmitsFits(codec: Codec, e: AdmissionEvidence, g: ScopeGrant, a: PreparedAction, now: int)
    requires Admits(codec, e, g, a, now).None?
    ensures a.scopeId == g.scopeId && Within(a, g)
    ensures e.evaluatedAt <= now < e.expiresAt <= g.expiresAt
  {
    var ca, cg := OrderedAction(a), Ordered(g);
    assert InScope(codec, ca, cg);
    SortMembers(Same, g.resources, a.resource);
    forall f | f in a.fields ensures AllowsField(g.fields, f.field, f.value) {
      SortMembers(ValueKey, a.fields, f);
      var s :| s in cg.fields && s.field == f.field && f.value in s.allowedValues;
      OrderedAllows(g, f.field, f.value);
    }
  }

  /** The shipped contract checks satisfy every law the ledger relies on. */
  lemma StandardLawful(codec: Codec)
    ensures Lawful(Standard(codec))
  {
    var c := Standard(codec);
    forall g | c.canonGrant(g).Ok?
      ensures c.canonGrant(c.canonGrant(g).value) == c.canonGrant(g)
      ensures c.canonGrant(g).value.delegationsRemaining <= MAX_DEPTH
      ensures c.canonGrant(g).value.parentId != Some(c.canonGrant(g).value.scopeId)
    {
      CanonGrantIdempotent(codec, g);
    }
    forall child, parent | c.childOf(child, parent).None?
      ensures child.parentId == Some(parent.scopeId)
      ensures child.delegationsRemaining < parent.delegationsRemaining && NoWider(child, parent)
    {
      ChildNarrows(codec, child, parent);
    }
    forall a | c.canonAction(a).Ok? ensures c.canonAction(c.canonAction(a).value) == c.canonAction(a) {
      CanonActionIdempotent(codec, a);
    }
    forall e, g, a, t | c.admits(e, g, a, t).None?
      ensures a.scopeId == g.scopeId && Within(a, g) && e.evaluatedAt <= t < e.expiresAt <= g.expiresAt
    {
      AdmitsFits(codec, e, g, a, t);
    }
  }
}
