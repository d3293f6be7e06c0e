/** What the contract checks decide, without the order in which lists were written. */
module ScopeContractLaws {
  import opened Wrappers
  import opened Order
  import opened ScopeTypes
  import opened ScopeForest
  import opened ScopeContracts
  import opened ScopeShapes

  // ------------------------------------------------------------------ canonical forms

  lemma NoDuplicatesExact(g: ScopeGrant)
    ensures NoDuplicates(g) <==>
      && DistinctBy(Same, g.resources) && DistinctBy(FieldKey, g.fields)
      && (forall i :: 0 <= i < |g.fields| ==> DistinctBy(Same, g.fields[i].allowedValues))
      && DistinctBy(CheckKey, g.requirements.evaluatorChecks)
  {
    forall k | 0 <= k < |g.fields|
      ensures DistinctValues(g.fields[k]) <==> DistinctBy(Same, g.fields[k].allowedValues)
    {
      DistinctSame(g.fields[k].allowedValues);
    }
    DistinctSame(g.resources);
    DistinctFields(g.fields);
    DistinctChecks(g.requirements.evaluatorChecks);
  }

  lemma DistinctSame(xs: seq<string>)
    ensures DistinctBy(Same, xs) <==> forall i, j :: 0 <= i < j < |xs| ==> xs[i] != xs[j]
  {
    assert forall i :: 0 <= i < |xs| ==> Same(xs[i]) == xs[i];
  }

  lemma DistinctFields(xs: seq<FieldConstraint>)
    ensures DistinctBy(FieldKey, xs) <==> forall i, j :: 0 <= i < j < |xs| ==> xs[i].field != xs[j].field
  {
    assert forall i :: 0 <= i < |xs| ==> FieldKey(xs[i]) == xs[i].field;
  }

  lemma DistinctChecks(xs: seq<EvaluatorRequirement>)
    ensures DistinctBy(CheckKey, xs) <==> forall i, j :: 0 <= i < j < |xs| ==> xs[i].checkId != xs[j].checkId
  {
    assert forall i :: 0 <= i < |xs| ==> CheckKey(xs[i]) == xs[i].checkId;
  }

  lemma DistinctSettings(xs: seq<FieldValue>)
    ensures DistinctBy(ValueKey, xs) <==> forall i, j :: 0 <= i < j < |xs| ==> xs[i].field != xs[j].field
  {
    assert forall i :: 0 <= i < |xs| ==> ValueKey(xs[i]) == xs[i].field;
  }

  lemma SortFieldsKeys(fs: seq<FieldConstraint>)
    ensures DistinctBy(FieldKey, SortFields(fs)) <==> DistinctBy(FieldKey, fs)
  {
    var sorted := SortFields(fs);
    assert forall i :: 0 <= i < |fs| ==> FieldKey(sorted[i]) == FieldKey(fs[i]);
    if DistinctBy(FieldKey, sorted) {
      forall i, j | 0 <= i < j < |fs|
        ensures FieldKey(fs[i]) != FieldKey(fs[j])
      {
        assert FieldKey(sorted[i]) != FieldKey(sorted[j]);
      }
    }
  }

  lemma ValuesStrict(g: ScopeGrant)
    ensures (forall f :: f in Ordered(g).fields ==> RisingBy(Same, f.allowedValues)) <==>
      (forall i :: 0 <= i < |g.fields| ==> DistinctBy(Same, g.fields[i].allowedValues))
  {
    forall i | 0 <= i < |g.fields|
      ensures RisingBy(Same, SortField(g.fields[i]).allowedValues) <==> DistinctBy(Same, g.fields[i].allowedValues)
      ensures SortField(g.fields[i]) in Ordered(g).fields
    {
      SortStrict(Same, g.fields[i].allowedValues);
      OrderedField(g, SortField(g.fields[i]));
    }
    forall f | f in Ordered(g).fields
      ensures exists i :: 0 <= i < |g.fields| && f == SortField(g.fields[i])
    {
      OrderedField(g, f);
    }
  }

  lemma StrictlyOrderedWhen(g: ScopeGrant)
    ensures StrictlyOrdered(Ordered(g)) <==> NoDuplicates(g)
  {
    SortStrict(Same, g.resources);
    SortStrict(FieldKey, SortFields(g.fields));
    SortFieldsKeys(g.fields);
    SortStrict(CheckKey, g.requirements.evaluatorChecks);
    ValuesStrict(g);
    NoDuplicatesExact(g);
  }

  /** A grant has a canonical form exactly when it is well shaped, repeats nothing and fits its size bound. */
  lemma CanonGrantExact(codec: Codec, g: ScopeGrant)
    ensures CanonGrant(codec, g).Ok? <==>
      && g.schemaVersion == 1 && GrantNamed(g) && GrantLimited(g) && GrantFilled(g)
      && NoDuplicates(g) && codec.grantBytes(Ordered(g)) <= 524288
    ensures CanonGrant(codec, g) == Err(Version) <==> g.schemaVersion != 1
    ensures CanonGrant(codec, g).Err? ==> CanonGrant(codec, g).error in {Version, Invalid}
  {
    StrictlyOrderedWhen(g);
    GrantShapesExact(g);
  }

  /** The same fields with the same values, in the order of their names, values in order too. */
  ghost predicate SameFields(fs: seq<FieldConstraint>, gs: seq<FieldConstraint>) {
    && |fs| == |gs|
    && (forall i, j :: 0 <= i < j < |fs| ==> Less(fs[i].field, fs[j].field))
    && (forall i :: 0 <= i < |fs| ==> exists k :: 0 <= k < |gs| && SameField(fs[i], gs[k]))
  }

  ghost predicate SameField(f: FieldConstraint, g: FieldConstraint) {
    f.field == g.field && multiset(f.allowedValues) == multiset(g.allowedValues) && Rising(f.allowedValues)
  }

  lemma RisingSame(xs: seq<string>)
    requires RisingBy(Same, xs)
    ensures Rising(xs)
  {
    assert forall i :: 0 <= i < |xs| ==> Same(xs[i]) == xs[i];
  }

  lemma CanonFields(g: ScopeGrant)
    requires StrictlyOrdered(Ordered(g))
    ensures SameFields(Ordered(g).fields, g.fields)
  {
    var fs := Ordered(g).fields;
    OrderedLengths(g);
    forall i, j | 0 <= i < j < |fs| ensures Less(fs[i].field, fs[j].field) { RisingByFar(FieldKey, fs, i, j); }
    forall i | 0 <= i < |fs| ensures exists k :: 0 <= k < |g.fields| && SameField(fs[i], g.fields[k]) {
      assert fs[i] in fs;
      OrderedField(g, fs[i]);
      var k :| 0 <= k < |g.fields| && fs[i] == SortField(g.fields[k]);
      SortPermutes(Same, g.fields[k].allowedValues);
      RisingSame(fs[i].allowedValues);
      assert SameField(fs[i], g.fields[k]);
    }
  }

  /** A canonical form is the same grant with every list sorted. */
  lemma CanonGrantForm(codec: Codec, g: ScopeGrant)
    requires CanonGrant(codec, g).Ok?
    ensures var o := CanonGrant(codec, g).value;
      && o.(resources := g.resources, fields := g.fields, requirements := g.requirements) == g
      && multiset(o.resources) == multiset(g.resources) && Rising(o.resources)
      && SameFields(o.fields, g.fields)
      && o.requirements.policyDigest == g.requirements.policyDigest
      && o.requirements.minimumApproval == g.requirements.minimumApproval
      && multiset(o.requirements.evaluatorChecks) == multiset(g.requirements.evaluatorChecks)
      && RisingBy((k: EvaluatorRequirement) => k.checkId, o.requirements.evaluatorChecks)
  {
    var o := Ordered(g);
    SortPermutes(Same, g.resources);
    SortPermutes(CheckKey, g.requirements.evaluatorChecks);
    RisingSame(o.resources);
    CanonFields(g);
    var checks := o.requirements.evaluatorChecks;
    assert forall i :: 0 <= i < |checks| ==> CheckKey(checks[i]) == checks[i].checkId;
  }

  lemma CanonActionForm(codec: Codec, a: PreparedAction)
    requires CanonAction(codec, a).Ok?
    ensures var o := CanonAction(codec, a).value;
      && o.(fields := a.fields) == a && multiset(o.fields) == multiset(a.fields)
      && RisingBy((f: FieldValue) => f.field, o.fields)
  {
    var o := OrderedAction(a);
    SortPermutes(ValueKey, a.fields);
    assert forall i :: 0 <= i < |o.fields| ==> ValueKey(o.fields[i]) == o.fields[i].field;
  }

  lemma CanonActionExact(codec: Codec, a: PreparedAction)
    ensures CanonAction(codec, a).Ok? <==>
      && a.schemaVersion == 1 && ActionShaped(a)
      && (forall i, j :: 0 <= i < j < |a.fields| ==> a.fields[i].field != a.fields[j].field)
      && codec.actionBytes(OrderedAction(a)) <= 524288
    ensures CanonAction(codec, a) == Err(Version) <==> a.schemaVersion != 1
    ensures CanonAction(codec, a).Err? ==> CanonAction(codec, a).error in {Version, Invalid}
  {
    SortStrict(ValueKey, a.fields);
    DistinctSettings(a.fields);
    ActionShapedExact(a);
  }

  // ------------------------------------------------------------------ narrowing

  ghost predicate FieldsNarrow(child: seq<FieldConstraint>, parent: seq<FieldConstraint>) {
    forall f :: f in child ==> FieldNarrows(f, parent)
  }

  ghost predicate FieldNarrows(f: FieldConstraint, parent: seq<FieldConstraint>) {
    exists p :: p in parent && p.field == f.field && forall v :: v in f.allowedValues ==> v in p.allowedValues
  }

  lemma SortedNarrows(f: FieldConstraint, h: FieldConstraint, g: ScopeGrant)
    requires f.field == h.field && forall v :: v in f.allowedValues <==> v in h.allowedValues
    ensures FieldNarrows(f, Ordered(g).fields) <==> FieldNarrows(h, g.fields)
  {
    if FieldNarrows(f, Ordered(g).fields) {
      var p :| p in Ordered(g).fields && p.field == f.field
        && forall v :: v in f.allowedValues ==> v in p.allowedValues;
      OrderedField(g, p);
      var i :| 0 <= i < |g.fields| && p == SortField(g.fields[i]);
      forall v | v in h.allowedValues
        ensures v in g.fields[i].allowedValues
      {
        SortMembers(Same, g.fields[i].allowedValues, v);
      }
      assert g.fields[i] in g.fields;
    }
    if FieldNarrows(h, g.fields) {
      var p :| p in g.fields && p.field == h.field && forall v :: v in h.allowedValues ==> v in p.allowedValues;
      var i :| 0 <= i < |g.fields| && g.fields[i] == p;
      OrderedField(g, SortField(p));
      forall v | v in f.allowedValues ensures v in SortField(p).allowedValues { SortMembers(Same, p.allowedValues, v); }
      assert SortField(p) in Ordered(g).fields;
    }
  }

  lemma FieldsNarrowWhen(child: ScopeGrant, parent: ScopeGrant)
    ensures FieldsNarrow(Ordered(child).fields, Ordered(parent).fields) <==> FieldsNarrow(child.fields, parent.fields)
  {
    forall i | 0 <= i < |child.fields|
      ensures SortField(child.fields[i]) in Ordered(child).fields
      ensures FieldNarrows(SortField(child.fields[i]), Ordered(parent).fields) <==>
        FieldNarrows(child.fields[i], parent.fields)
    {
      var f := child.fields[i];
      OrderedField(child, SortField(f));
      forall v
        ensures v in SortField(f).allowedValues <==> v in f.allowedValues
      {
        SortMembers(Same, f.allowedValues, v);
      }
      SortedNarrows(SortField(f), f, parent);
    }
    forall f | f in Ordered(child).fields
      ensures exists i :: 0 <= i < |child.fields| && f == SortField(child.fields[i])
    {
      OrderedField(child, f);
    }
  }

  /** Requirements a child must keep: the policy, the kind of approval, every evaluator check. */
  ghost predicate NoLaxer(child: ScopeGrant, parent: ScopeGrant) {
    && child.requirements.policyDigest == parent.requirements.policyDigest
    && (parent.requirements.minimumApproval.ExactAction? ==> child.requirements.minimumApproval.ExactAction?)
    && (forall k :: k in parent.requirements.evaluatorChecks ==> k in child.requirements.evaluatorChecks)
  }

  /** Everything that makes a grant a child of another, list orders aside. */
  ghost predicate IsChild(child: ScopeGrant, parent: ScopeGrant) {
    && child.parentId == Some(parent.scopeId) && child.issuer == parent.subject
    && child.rootId == parent.rootId && child.owner == parent.owner && child.operation == parent.operation
    && child.providerProfileDigest == parent.providerProfileDigest
    && child.notBefore >= parent.notBefore && child.expiresAt <= parent.expiresAt
    && child.delegationsRemaining < parent.delegationsRemaining
    && child.maxChargedAttempts <= parent.maxChargedAttempts
    && child.maxDistinctResources <= parent.maxDistinctResources
    && (forall r :: r in child.resources ==> r in parent.resources)
    && FieldsNarrow(child.fields, parent.fields)
    && NoLaxer(child, parent)
  }

  lemma ResourcesWhen(child: ScopeGrant, parent: ScopeGrant)
    ensures (forall r :: r in Ordered(child).resources ==> r in Ordered(parent).resources) <==>
      (forall r :: r in child.resources ==> r in parent.resources)
  {
    forall r ensures r in Ordered(child).resources <==> r in child.resources { SortMembers(Same, child.resources, r); }
    forall r
      ensures r in Ordered(parent).resources <==> r in parent.resources
    {
      SortMembers(Same, parent.resources, r);
    }
  }

  lemma ChecksWhen(child: ScopeGrant, parent: ScopeGrant)
    ensures NoLaxer(Ordered(child), Ordered(parent)) <==> NoLaxer(child, parent)
  {
    forall k ensures k in Ordered(child).requirements.evaluatorChecks <==> k in child.requirements.evaluatorChecks {
      SortMembers(CheckKey, child.requirements.evaluatorChecks, k);
    }
    forall k ensures k in Ordered(parent).requirements.evaluatorChecks <==> k in parent.requirements.evaluatorChecks {
      SortMembers(CheckKey, parent.requirements.evaluatorChecks, k);
    }
  }

  lemma SubsetIsChild(c: ScopeGrant, p: ScopeGrant)
    ensures Subset(c, p) <==> IsChild(c, p)
  {
    assert FieldsNarrow(c.fields, p.fields) <==>
      forall f :: f in c.fields ==>
        exists q :: q in p.fields && q.field == f.field
          && forall v :: v in f.allowedValues ==> v in q.allowedValues by {
      assert forall f :: FieldNarrows(f, p.fields) <==>
        exists q :: q in p.fields && q.field == f.field && forall v :: v in f.allowedValues ==> v in q.allowedValues;
    }
  }

  /** A child is accepted exactly when both grants have canonical forms and it narrows its parent everywhere. */
  lemma ChildExact(codec: Codec, child: ScopeGrant, parent: ScopeGrant)
    ensures ChildOf(codec, child, parent).None? <==>
      CanonGrant(codec, child).Ok? && CanonGrant(codec, parent).Ok? && IsChild(child, parent)
    ensures ChildOf(codec, child, parent) == Some(NotSubset) <==>
      CanonGrant(codec, child).Ok? && CanonGrant(codec, parent).Ok? && !IsChild(child, parent)
  {
    CanonGrantExact(codec, child);
    CanonGrantExact(codec, parent);
    SubsetIsChild(Ordered(child), Ordered(parent));
    ResourcesWhen(child, parent);
    FieldsNarrowWhen(child, parent);
    ChecksWhen(child, parent);
  }

  /** Along a whole line requirements only tighten: no descendant escapes a check, policy or approval of an ancestor. */
  lemma {:induction false} LineTightens(codec: Codec, scopes: Scopes, a: string, id: string)
    requires SoundScopes(Standard(codec), scopes) && Forest(scopes) && Above(scopes, a, id)
    ensures NoLaxer(scopes[id].grant, scopes[a].grant)
    decreases |Line(scopes, id)|
  {
    if a != id {
      assert SoundScope(Standard(codec), scopes, id);
      LineParent(scopes, id);
      var p := scopes[id].grant.parentId.value;
      ChildExact(codec, scopes[id].grant, scopes[p].grant);
      LineTightens(codec, scopes, a, p);
    }
  }

  // ------------------------------------------------------------------ admission

  lemma FieldsAllowed(a: PreparedAction, g: ScopeGrant)
    ensures (forall f :: f in OrderedAction(a).fields ==>
               exists s :: s in Ordered(g).fields && s.field == f.field && f.value in s.allowedValues) <==>
      (forall f :: f in a.fields ==> AllowsField(g.fields, f.field, f.value))
  {
    forall f ensures f in OrderedAction(a).fields <==> f in a.fields { SortMembers(ValueKey, a.fields, f); }
    forall f: FieldValue
      ensures (exists s :: s in Ordered(g).fields && s.field == f.field && f.value in s.allowedValues) <==>
        AllowsField(g.fields, f.field, f.value)
    {
      OrderedAllows(g, f.field, f.value);
      AllowsMember(Ordered(g).fields, f.field, f.value);
    }
  }

  lemma AllowsMember(fields: seq<FieldConstraint>, field: string, value: string)
    ensures AllowsField(fields, field, value) <==>
      exists s :: s in fields && s.field == field && value in s.allowedValues
  {
    if AllowsField(fields, field, value) {
      var i :| 0 <= i < |fields| && fields[i].field == field && value in fields[i].allowedValues;
      assert fields[i] in fields;
    }
  }

  /** An action fits a grant exactly when both are canonical, it names that grant, and all its values are allowed. */
  lemma FitsExact(codec: Codec, a: PreparedAction, g: ScopeGrant)
    ensures ActionFits(codec, a, g).None? <==>
      && CanonAction(codec, a).Ok? && CanonGrant(codec, g).Ok?
      && a.scopeId == g.scopeId && a.scopeDigest == codec.grantHash(Ordered(g))
      && a.subject == g.subject && Within(a, g)
    ensures CanonAction(codec, a).Ok? && CanonGrant(codec, g).Ok? && ActionFits(codec, a, g).Some? ==>
      ActionFits(codec, a, g) == Some(OutOfScope)
  {
    FieldsAllowed(a, g);
    SortMembers(Same, g.resources, a.resource);
  }

  ghost predicate ReceiptFits(e: AdmissionEvidence, a: PreparedAction, r: EvaluatorReceipt) {
    && Identifier(r.checkId) && Digest(r.contractDigest) && Digest(r.receiptDigest)
    && r.actionDigest == e.actionDigest && r.evidenceDigest == a.evidenceDigest
  }

  lemma {:induction false} ReceiptsWhen(e: AdmissionEvidence, a: PreparedAction, receipts: seq<EvaluatorReceipt>)
    ensures ReceiptsBind(e, a, receipts).None? <==> forall i :: 0 <= i < |receipts| ==> ReceiptFits(e, a, receipts[i])
  {
    TextsExact();
    if receipts != [] {
      ReceiptsWhen(e, a, receipts[1..]);
      assert receipts == [receipts[0]] + receipts[1..];
    }
  }

  ghost predicate Covered(e: AdmissionEvidence, k: EvaluatorRequirement) {
    exists r :: r in e.evaluators && r.checkId == k.checkId && r.contractDigest == k.contractDigest
  }

  /** Each required check has its own receipt for this very action, and no check is answered twice. */
  ghost predicate Evaluated(e: AdmissionEvidence, g: ScopeGrant, a: PreparedAction) {
    && (forall i, j :: 0 <= i < j < |e.evaluators| ==> e.evaluators[i].checkId != e.evaluators[j].checkId)
    && (forall i :: 0 <= i < |e.evaluators| ==> ReceiptFits(e, a, e.evaluators[i]))
    && (forall k :: k in g.requirements.evaluatorChecks ==> Covered(e, k))
  }

  lemma EvaluatorsWhen(e: AdmissionEvidence, g: ScopeGrant, a: PreparedAction)
    ensures EvaluatorsFit(e, g, a).None? <==> Evaluated(e, g, a)
  {
    ReceiptsWhen(e, a, e.evaluators);
    assert forall k :: Covered(e, k) <==>
      exists r :: r in e.evaluators && r.checkId == k.checkId && r.contractDigest == k.contractDigest;
  }

  /** A review, when there is one, is of this action under this scope and policy, and has not lapsed. */
  ghost predicate Reviewed(e: AdmissionEvidence, g: ScopeGrant, a: PreparedAction, now: int) {
    match e.review
    case None => !g.requirements.minimumApproval.ExactAction?
    case Some(r) =>
      && r.schemaVersion == 1 && ReviewShaped(r)
      && r.actionId == a.actionId && r.actionDigest == e.actionDigest && r.scopeDigest == e.scopeDigest
      && r.evidenceDigest == a.evidenceDigest && r.policyDigest == e.policyDigest
      && now < r.expiresAt <= g.expiresAt
  }

  ghost predicate Bound(codec: Codec, e: AdmissionEvidence, g: ScopeGrant, a: PreparedAction, now: int) {
    && e.schemaVersion == 1
    && e.policyDigest == g.requirements.policyDigest
    && e.scopeDigest == codec.grantHash(Ordered(g)) && e.actionDigest == codec.actionHash(OrderedAction(a))
    && e.authorityRevision > 0 && 0 <= e.evaluatedAt <= now < e.expiresAt <= g.expiresAt
    && |e.evaluators| <= 32
  }

  // ------------------------------------------------------------------ refusals

  /** The error of a review: its version, its shape, then what it is a review of. */
  ghost function ReviewRefusal(e: AdmissionEvidence, g: ScopeGrant, a: PreparedAction, now: int): Option<ScopeError> {
    match e.review
    case None => if g.requirements.minimumApproval == ExactAction then Some(Evidence) else None
    case Some(r) =>
      if r.schemaVersion != 1 then Some(Version)
      else if !ReviewShaped(r) then Some(Invalid)
      else if !Reviewed(e, g, a, now) then Some(Evidence)
      else None
  }

  /** The error of a receipt: its shape, then what it is a receipt for. */
  ghost function ReceiptRefusal(e: AdmissionEvidence, a: PreparedAction, r: EvaluatorReceipt): Option<ScopeError> {
    if !(Identifier(r.checkId) && Digest(r.contractDigest) && Digest(r.receiptDigest)) then Some(Invalid)
    else if r.actionDigest != e.actionDigest || r.evidenceDigest != a.evidenceDigest then Some(Evidence)
    else None
  }

  /** The first receipt that is refused decides the error. */
  ghost predicate FirstRefused(e: AdmissionEvidence, a: PreparedAction, receipts: seq<EvaluatorReceipt>,
                               x: ScopeError)
  {
    exists i :: 0 <= i < |receipts| && ReceiptRefusal(e, a, receipts[i]) == Some(x)
      && forall k :: 0 <= k < i ==> ReceiptRefusal(e, a, receipts[k]).None?
  }

  lemma {:induction false} ReceiptsRefused(e: AdmissionEvidence, a: PreparedAction, receipts: seq<EvaluatorReceipt>,
                                           x: ScopeError)
    ensures ReceiptsBind(e, a, receipts) == Some(x) <==> FirstRefused(e, a, receipts, x)
  {
    if receipts != [] {
      TextsExact();
      var rest := receipts[1..];
      ReceiptsRefused(e, a, rest, x);
      assert ReceiptRefusal(e, a, receipts[0]).Some? ==>
        ReceiptsBind(e, a, receipts) == ReceiptRefusal(e, a, receipts[0]);
      if ReceiptRefusal(e, a, receipts[0]).None? { FirstLater(e, a, receipts, x); }
    }
  }

  lemma FirstLater(e: AdmissionEvidence, a: PreparedAction, receipts: seq<EvaluatorReceipt>, x: ScopeError)
    requires receipts != [] && ReceiptRefusal(e, a, receipts[0]).None?
    ensures FirstRefused(e, a, receipts, x) <==> FirstRefused(e, a, receipts[1..], x)
  {
    var rest := receipts[1..];
    assert forall k :: 0 <= k < |rest| ==> rest[k] == receipts[k + 1];
    if FirstRefused(e, a, receipts, x) {
      var i :| 0 <= i < |receipts| && ReceiptRefusal(e, a, receipts[i]) == Some(x)
        && forall k :: 0 <= k < i ==> ReceiptRefusal(e, a, receipts[k]).None?;
      assert ReceiptRefusal(e, a, rest[i - 1]) == Some(x);
      assert forall k :: 0 <= k < i - 1 ==> ReceiptRefusal(e, a, rest[k]) == ReceiptRefusal(e, a, receipts[k + 1]);
    }
    if FirstRefused(e, a, rest, x) {
      var i :| 0 <= i < |rest| && ReceiptRefusal(e, a, rest[i]) == Some(x)
        && forall k :: 0 <= k < i ==> ReceiptRefusal(e, a, rest[k]).None?;
      assert ReceiptRefusal(e, a, receipts[i + 1]) == Some(x);
      forall k | 0 <= k < i + 1 ensures ReceiptRefusal(e, a, receipts[k]).None? {
        if k > 0 { assert receipts[k] == rest[k - 1]; }
      }
    }
  }

  ghost predicate ChecksRepeat(e: AdmissionEvidence) {
    exists i, j :: 0 <= i < j < |e.evaluators| && e.evaluators[i].checkId == e.evaluators[j].checkId
  }

  lemma EvaluatorsRefused(e: AdmissionEvidence, g: ScopeGrant, a: PreparedAction, x: ScopeError)
    ensures EvaluatorsFit(e, g, a) == Some(x) <==>
      || (ChecksRepeat(e) && x == Invalid)
      || (!ChecksRepeat(e) && FirstRefused(e, a, e.evaluators, x))
      || (!ChecksRepeat(e) && ReceiptsBind(e, a, e.evaluators).None? && !Evaluated(e, g, a) && x == Evidence)
  {
    ReceiptsRefused(e, a, e.evaluators, x);
    EvaluatorsWhen(e, g, a);
    ReceiptsWhen(e, a, e.evaluators);
  }

  /** Which error refused evidence meets first: its version, the action, its binding, its review, its receipts. */
  lemma AdmitsRefused(codec: Codec, e: AdmissionEvidence, g: ScopeGrant, a: PreparedAction, now: int)
    ensures Admits(codec, e, g, a, now) ==
      if e.schemaVersion != 1 then Some(Version)
      else if ActionFits(codec, a, g).Some? then ActionFits(codec, a, g)
      else if !Bound(codec, e, g, a, now) then Some(Evidence)
      else if ReviewRefusal(e, g, a, now).Some? then ReviewRefusal(e, g, a, now)
      else EvaluatorsFit(e, g, a)
  {
    if e.review.Some? { ReviewShapedExact(e.review.value); }
  }

  /** Evidence admits an action exactly when it is bound to it, fresh, reviewed as required and fully evaluated. */
  lemma AdmitsExact(codec: Codec, e: AdmissionEvidence, g: ScopeGrant, a: PreparedAction, now: int)
    ensures Admits(codec, e, g, a, now).None? <==>
      && ActionFits(codec, a, g).None? && Bound(codec, e, g, a, now) && Reviewed(e, g, a, now) && Evaluated(e, g, a)
  {
    EvaluatorsWhen(e, g, a);
    if e.review.Some? { ReviewShapedExact(e.review.value); }
  }
}
