/** Grants, prepared actions, admission evidence and the rows of the scope ledger. */
module ScopeTypes {
  import opened Wrappers

  const VERSION: nat := 1
  const MAX_DEPTH: nat := 8
  const MAX_RESOURCES: nat := 4096
  const MAX_FIELDS: nat := 32
  const MAX_VALUES: nat := 64
  const MAX_CHECKS: nat := 32
  const MAX_BYTES: nat := 512 * 1024
  const I64_MAX: nat := 0x7fff_ffff_ffff_ffff

  datatype ScopeError = Version | Invalid | NotSubset | OutOfScope | Evidence

  datatype StoreError =
    | Validation(reason: ScopeError)
    | Corrupt
    | NotFound
    | OwnerMismatch
    | Inactive
    | ClockRollback
    | IdempotencyConflict
    | BudgetExceeded
    | Consumed
    | InvalidTransition
    | Authority(detail: string)

  datatype AuthorityOwner = AuthorityOwner(tenantId: string, brokerId: string, generation: string)

  datatype FieldConstraint = FieldConstraint(field: string, allowedValues: seq<string>)

  datatype FieldValue = FieldValue(field: string, value: string)

  datatype MinimumApproval = ScopeIssuance | ExactAction

  datatype EvaluatorRequirement = EvaluatorRequirement(checkId: string, contractDigest: string)

  datatype ScopeRequirements = ScopeRequirements(
    policyDigest: string, minimumApproval: MinimumApproval, evaluatorChecks: seq<EvaluatorRequirement>)

  datatype ScopeGrant = ScopeGrant(
    schemaVersion: nat, scopeId: string, rootId: string, parentId: Option<string>, owner: AuthorityOwner,
    issuer: string, subject: string, operation: string, providerProfileDigest: string,
    resources: seq<string>, fields: seq<FieldConstraint>, notBefore: int, expiresAt: int,
    delegationsRemaining: nat, maxChargedAttempts: nat, maxDistinctResources: nat,
    requirements: ScopeRequirements, issuanceReceiptDigest: string)

  datatype PreparedAction = PreparedAction(
    schemaVersion: nat, actionId: string, requestId: string, scopeId: string, scopeDigest: string,
    owner: AuthorityOwner, subject: string, operation: string, providerProfileDigest: string,
    resource: string, resourceVersion: string, fields: seq<FieldValue>, evidenceDigest: string)

  datatype ReviewBinding = ReviewBinding(
    schemaVersion: nat, caseId: string, caseRevision: nat, actionId: string, actionDigest: string,
    scopeDigest: string, evidenceDigest: string, policyDigest: string, roundId: string,
    decisionReceiptDigest: string, expiresAt: int)

  datatype EvaluatorReceipt = EvaluatorReceipt(
    checkId: string, contractDigest: string, receiptDigest: string, actionDigest: string, evidenceDigest: string)

  datatype AdmissionEvidence = AdmissionEvidence(
    schemaVersion: nat, policyDigest: string, scopeDigest: string, actionDigest: string,
    authorityRevision: nat, evaluatedAt: int, expiresAt: int,
    review: Option<ReviewBinding>, evaluators: seq<EvaluatorReceipt>)

  datatype ExecutionState = Reserved | DispatchClaimed | ApiAccepted | Rejected | Unknown

  datatype ScopeRecord = ScopeRecord(
    grant: ScopeGrant, digest: string, issuedAt: int, revokedAt: Option<int>,
    chargedAttempts: nat, chargedResources: set<string>)

  datatype ActionRecord = ActionRecord(
    action: PreparedAction, digest: string, evidence: AdmissionEvidence, reservedAt: int,
    dispatchClaimedAt: Option<int>, finishedAt: Option<int>, state: ExecutionState)

  datatype EventKind = ScopeIssued | ScopeRevoked | AttemptCharged | ClaimRecorded | AttemptFinished | Interrupted

  datatype AuthorityEvent = AuthorityEvent(
    sequence: nat, scopeId: string, actionId: Option<string>, kind: EventKind,
    observedAt: Option<int>, contentDigest: string)

  /** The durable tables of one owner: `scope_meta`, `scope_grants`, `scope_actions`, `scope_events`. */
  datatype Ledger = Ledger(
    owner: AuthorityOwner, lastSeen: int, scopes: map<string, ScopeRecord>,
    actions: map<string, ActionRecord>, events: seq<AuthorityEvent>)

  /**
   * The contract checks the ledger calls. They are values so that the ledger is proved for every
   * behaviour that satisfies `Lawful`; `ScopeContracts.Standard` is the one the system ships.
   */
  datatype Contracts = Contracts(
    ownerOk: AuthorityOwner -> bool,
    canonGrant: ScopeGrant -> Result<ScopeGrant, ScopeError>,
    grantDigest: ScopeGrant -> string,
    childOf: (ScopeGrant, ScopeGrant) -> Option<ScopeError>,
    canonAction: PreparedAction -> Result<PreparedAction, ScopeError>,
    actionDigest: PreparedAction -> string,
    admits: (AdmissionEvidence, ScopeGrant, PreparedAction, int) -> Option<ScopeError>)

  ghost predicate AllowsField(fields: seq<FieldConstraint>, field: string, value: string) {
    exists i :: 0 <= i < |fields| && fields[i].field == field && value in fields[i].allowedValues
  }

  /** What a child may keep of its parent's authority, apart from the link between the two. */
  ghost predicate NoWider(child: ScopeGrant, parent: ScopeGrant) {
    && child.owner == parent.owner
    && child.rootId == parent.rootId
    && child.operation == parent.operation
    && child.providerProfileDigest == parent.providerProfileDigest
    && child.notBefore >= parent.notBefore
    && child.expiresAt <= parent.expiresAt
    && child.delegationsRemaining <= parent.delegationsRemaining
    && child.maxChargedAttempts <= parent.maxChargedAttempts
    && child.maxDistinctResources <= parent.maxDistinctResources
    && (forall r :: r in child.resources ==> r in parent.resources)
    && (forall f, v :: AllowsField(child.fields, f, v) ==> AllowsField(parent.fields, f, v))
  }

  ghost predicate Within(action: PreparedAction, grant: ScopeGrant) {
    && action.owner == grant.owner
    && action.operation == grant.operation
    && action.providerProfileDigest == grant.providerProfileDigest
    && action.resource in grant.resources
    && (forall f :: f in action.fields ==> AllowsField(grant.fields, f.field, f.value))
  }

  /** The facts about the contract checks on which the ledger's guarantees rest. */
  ghost predicate Lawful(c: Contracts) {
    && (forall g :: c.canonGrant(g).Ok? ==> c.canonGrant(c.canonGrant(g).value) == c.canonGrant(g))
    && (forall g :: c.canonGrant(g).Ok? ==>
          && c.canonGrant(g).value.delegationsRemaining <= MAX_DEPTH
          && c.canonGrant(g).value.parentId != Some(c.canonGrant(g).value.scopeId))
    && (forall child, parent :: c.childOf(child, parent).None? ==>
          && child.parentId == Some(parent.scopeId)
          && child.delegationsRemaining < parent.delegationsRemaining
          && NoWider(child, parent))
    && (forall a :: c.canonAction(a).Ok? ==> c.canonAction(c.canonAction(a).value) == c.canonAction(a))
    && (forall e, g, a, t :: c.admits(e, g, a, t).None? ==>
          && a.scopeId == g.scopeId
          && Within(a, g)
          && e.evaluatedAt <= t < e.expiresAt <= g.expiresAt)
  }
}
