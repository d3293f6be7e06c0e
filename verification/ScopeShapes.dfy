/** What a well-formed grant, action and review look like, limit by limit. */
module ScopeShapes {
  import opened Alphabets
  import opened ScopeTypes
  import opened ScopeContracts

  // ------------------------------------------------------------------ texts

  ghost predicate Identifier(s: string) {
    1 <= |s| <= 256 && forall i :: 0 <= i < |s| ==> LetterOrDigit(s[i]) || s[i] in "_.:-/"
  }

  ghost predicate Digest(s: string) {
    |s| == 64 && forall i :: 0 <= i < 64 ==> s[i] in HEX
  }

  /** The UTF-8 encoding of one character. */
  ghost function Encoded(c: char): seq<int> {
    var n := c as int;
    if n < 128 then [n]
    else if n < 2048 then [192 + n / 64, 128 + n % 64]
    else if n < 65536 then [224 + n / 4096, 128 + n / 64 % 64, 128 + n % 64]
    else [240 + n / 262144, 128 + n / 4096 % 64, 128 + n / 64 % 64, 128 + n % 64]
  }

  ghost function Utf8(s: string): seq<int> {
    if s == "" then [] else Encoded(s[0]) + Utf8(s[1..])
  }

  ghost predicate ShortText(s: string) {
    |Utf8(s)| <= 1024 && forall i :: 0 <= i < |s| ==> 32 <= s[i] as int && !(127 <= s[i] as int <= 159)
  }

  lemma IdentifierExact(s: string)
    ensures IsId(s) <==> Identifier(s)
  {
    forall ch ensures IdChar(ch) <==> LetterOrDigit(ch) || ch in "_.:-/" { LetterOrDigitExact(ch); }
  }

  lemma DigestExact(s: string)
    ensures IsDigest(s) <==> Digest(s)
  {
    forall ch ensures '0' <= ch <= '9' || 'a' <= ch <= 'f' <==> ch in HEX { HexExact(ch); }
  }

  lemma {:induction false} Utf8Exact(s: string)
    ensures Utf8Length(s) == |Utf8(s)|
  {
    if s != "" { Utf8Exact(s[1..]); }
  }

  lemma ShortTextExact(s: string)
    ensures IsBounded(s) <==> ShortText(s)
  {
    Utf8Exact(s);
  }

  lemma TextsExact()
    ensures forall s :: IsId(s) <==> Identifier(s)
    ensures forall s :: IsDigest(s) <==> Digest(s)
    ensures forall s :: IsBounded(s) <==> ShortText(s)
  {
    forall s ensures IsId(s) <==> Identifier(s) { IdentifierExact(s); }
    forall s ensures IsDigest(s) <==> Digest(s) { DigestExact(s); }
    forall s ensures IsBounded(s) <==> ShortText(s) { ShortTextExact(s); }
  }

  // ------------------------------------------------------------------ grants

  ghost predicate OwnerShaped(o: AuthorityOwner) {
    Identifier(o.tenantId) && Identifier(o.brokerId) && Identifier(o.generation)
  }

  /** A root names itself as its root; any other grant names a parent and another root. */
  ghost predicate GrantNamed(g: ScopeGrant) {
    && OwnerShaped(g.owner)
    && Identifier(g.scopeId) && Identifier(g.rootId) && Identifier(g.issuer) && Identifier(g.subject)
    && Identifier(g.operation)
    && (g.parentId.None? ==> g.rootId == g.scopeId)
    && (g.parentId.Some? ==>
          Identifier(g.parentId.value) && g.parentId.value != g.scopeId && g.rootId != g.scopeId)
    && Digest(g.providerProfileDigest) && Digest(g.issuanceReceiptDigest) && Digest(g.requirements.policyDigest)
  }

  ghost predicate GrantLimited(g: ScopeGrant) {
    && 0 <= g.notBefore < g.expiresAt && g.delegationsRemaining <= 8
    && 1 <= g.maxChargedAttempts <= 0x7fff_ffff_ffff_ffff
    && 1 <= g.maxDistinctResources <= |g.resources| <= 4096
    && 1 <= |g.fields| <= 32 && |g.requirements.evaluatorChecks| <= 32
  }

  ghost predicate FieldShaped(f: FieldConstraint) {
    && Identifier(f.field) && 1 <= |f.allowedValues| <= 64
    && forall i :: 0 <= i < |f.allowedValues| ==> ShortText(f.allowedValues[i])
  }

  ghost predicate GrantFilled(g: ScopeGrant) {
    && (forall i :: 0 <= i < |g.resources| ==> Identifier(g.resources[i]))
    && (forall i :: 0 <= i < |g.fields| ==> FieldShaped(g.fields[i]))
    && (forall i :: 0 <= i < |g.requirements.evaluatorChecks| ==>
          && Identifier(g.requirements.evaluatorChecks[i].checkId)
          && Digest(g.requirements.evaluatorChecks[i].contractDigest))
  }

  /** No resource, field name, value of a field or evaluator check is written twice. */
  ghost predicate NoDuplicates(g: ScopeGrant) {
    && (forall i, j :: 0 <= i < j < |g.resources| ==> g.resources[i] != g.resources[j])
    && (forall i, j :: 0 <= i < j < |g.fields| ==> g.fields[i].field != g.fields[j].field)
    && (forall k :: 0 <= k < |g.fields| ==> DistinctValues(g.fields[k]))
    && (forall i, j :: 0 <= i < j < |g.requirements.evaluatorChecks| ==>
          g.requirements.evaluatorChecks[i].checkId != g.requirements.evaluatorChecks[j].checkId)
  }

  ghost predicate DistinctValues(f: FieldConstraint) {
    forall i, j :: 0 <= i < j < |f.allowedValues| ==> f.allowedValues[i] != f.allowedValues[j]
  }

  lemma FieldShapedExact(f: FieldConstraint)
    ensures FieldShape(f) <==> FieldShaped(f)
  {
    TextsExact();
  }

  lemma GrantNamedExact(g: ScopeGrant)
    ensures IdentityShape(g) <==> GrantNamed(g)
  {
    TextsExact();
  }

  lemma GrantFilledExact(g: ScopeGrant)
    ensures ContentShape(g) <==> GrantFilled(g)
  {
    TextsExact();
    forall f ensures FieldShape(f) <==> FieldShaped(f) { FieldShapedExact(f); }
    var checks := g.requirements.evaluatorChecks;
    assert (forall k :: k in checks ==> IsId(k.checkId) && IsDigest(k.contractDigest)) <==>
      (forall i :: 0 <= i < |checks| ==> Identifier(checks[i].checkId) && Digest(checks[i].contractDigest));
  }

  lemma GrantShapesExact(g: ScopeGrant)
    ensures IdentityShape(g) && LimitShape(g) && ContentShape(g) <==> GrantNamed(g) && GrantLimited(g) && GrantFilled(g)
  {
    GrantNamedExact(g);
    GrantFilledExact(g);
  }

  // ------------------------------------------------------------------ actions and reviews

  ghost predicate ActionShaped(a: PreparedAction) {
    && OwnerShaped(a.owner)
    && Identifier(a.actionId) && Identifier(a.requestId) && Identifier(a.scopeId) && Identifier(a.subject)
    && Identifier(a.operation) && Identifier(a.resource)
    && ShortText(a.resourceVersion) && |a.resourceVersion| > 0 && 1 <= |a.fields| <= 32
    && Digest(a.scopeDigest) && Digest(a.providerProfileDigest) && Digest(a.evidenceDigest)
    && (forall i :: 0 <= i < |a.fields| ==> Identifier(a.fields[i].field) && ShortText(a.fields[i].value))
  }

  lemma ActionShapedExact(a: PreparedAction)
    ensures ActionShape(a) <==> ActionShaped(a)
  {
    TextsExact();
    assert (forall f :: f in a.fields ==> IsId(f.field) && IsBounded(f.value)) <==>
      (forall i :: 0 <= i < |a.fields| ==> Identifier(a.fields[i].field) && ShortText(a.fields[i].value));
  }

  ghost predicate ReviewShaped(r: ReviewBinding) {
    && Identifier(r.caseId) && Identifier(r.actionId) && Identifier(r.roundId)
    && Digest(r.actionDigest) && Digest(r.scopeDigest) && Digest(r.evidenceDigest)
    && Digest(r.policyDigest) && Digest(r.decisionReceiptDigest)
    && r.caseRevision > 0 && r.expiresAt > 0
  }

  lemma ReviewShapedExact(r: ReviewBinding)
    ensures ReviewShape(r) <==> ReviewShaped(r)
  {
    TextsExact();
  }
}
