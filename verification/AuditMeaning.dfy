/** What each finding means, stated over the records alone. */
module AuditMeaning {
  import opened Wrappers
  import opened AuditAnomalies

  ghost predicate About(r: Record, q: string) {
    r.request == Some(q)
  }

  /** A record after which an earlier requirement of this request is no longer open. */
  ghost predicate Ends(r: Record, q: string) {
    About(r, q) && (r.kind == Required || r.kind == Succeeded || r.kind == FailedOp)
  }

  ghost predicate Approves(r: Record, q: string) {
    About(r, q) && (r.kind == ApprovalGranted || r.kind == LeaseHit)
  }

  /** Record `i` is the requirement still open for `q` after all of `records`. */
  ghost predicate Opens(records: seq<Record>, q: string, i: nat) {
    && i < |records| && About(records[i], q) && records[i].kind == Required
    && forall k :: i < k < |records| ==> !Ends(records[k], q)
  }

  /** Both records name an action, or both an approval, and not the same one. */
  ghost predicate Contradicts(a: Record, b: Record) {
    || (a.action.Some? && b.action.Some? && a.action.value != b.action.value)
    || (a.approval.Some? && b.approval.Some? && a.approval.value != b.approval.value)
  }

  /** An approval, not a lease, of exactly the required action under the required approval. */
  ghost predicate Matches(a: Record, b: Record) {
    && b.kind == ApprovalGranted
    && a.action.Some? && b.action.Some? && a.action.value == b.action.value
    && a.approval.Some? && b.approval.Some? && a.approval.value == b.approval.value
  }

  /** An approval that fits the requirement exactly, and one that merely does not contradict it. */
  ghost predicate Grants(records: seq<Record>, q: string, i: nat, k: nat)
    requires i < |records| && k < |records|
  {
    Approves(records[k], q) && Matches(records[i], records[k])
  }

  ghost predicate Clouds(records: seq<Record>, q: string, i: nat, k: nat)
    requires i < |records| && k < |records|
  {
    Approves(records[k], q) && !Contradicts(records[i], records[k]) && !Matches(records[i], records[k])
  }

  ghost predicate GrantedSince(records: seq<Record>, q: string, i: nat)
    requires i < |records|
  {
    exists k :: i < k < |records| && Grants(records, q, i, k)
  }

  ghost predicate CloudedSince(records: seq<Record>, q: string, i: nat)
    requires i < |records|
  {
    exists k :: i < k < |records| && Clouds(records, q, i, k)
  }

  ghost function HeldFor(records: seq<Record>, q: string, i: nat): Held
    requires i < |records|
  {
    Held(records[i].action, records[i].approval, records[i].sequence, GrantedSince(records, q, i),
         CloudedSince(records, q, i))
  }

  ghost predicate HeldMeans(records: seq<Record>, q: string) {
    && (q in Track(None, records).held ==> exists i: nat :: Opens(records, q, i))
    && (forall i: nat :: Opens(records, q, i) ==>
        q in Track(None, records).held && Track(None, records).held[q] == HeldFor(records, q, i))
  }

  lemma SinceGrows(records: seq<Record>, r: Record, q: string, i: nat)
    requires i < |records|
    ensures GrantedSince(records + [r], q, i) <==> GrantedSince(records, q, i) || Grants(records + [r], q, i, |records|)
    ensures CloudedSince(records + [r], q, i) <==> CloudedSince(records, q, i) || Clouds(records + [r], q, i, |records|)
  {
    var more := records + [r];
    forall k | i < k < |records| ensures Grants(more, q, i, k) <==> Grants(records, q, i, k) {}
    forall k | i < k < |records| ensures Clouds(more, q, i, k) <==> Clouds(records, q, i, k) {}
  }

  lemma OpensGrows(records: seq<Record>, r: Record, q: string, i: nat)
    ensures Opens(records + [r], q, i) <==>
      if Ends(r, q) then r.kind == Required && i == |records| else Opens(records, q, i)
  {
    var more := records + [r];
    if Opens(records, q, i) && !Ends(r, q) {
      forall k | i < k < |more| ensures !Ends(more[k], q) { if k < |records| { assert more[k] == records[k]; } }
    }
    if Opens(more, q, i) && i < |records| {
      assert more[|records|] == r;
      forall k | i < k < |records| ensures !Ends(records[k], q) { assert more[k] == records[k]; }
    }
  }

  /** One record's effect on what is held for one request. */
  lemma HeldAfter(t: Tracker, r: Record, q: string)
    ensures var u := Observe(None, t, r);
      && (!About(r, q) || r.kind == Dropped || r.kind == Unrelated ==>
          (q in u.held <==> q in t.held) && (q in t.held ==> u.held[q] == t.held[q]))
      && (Approves(r, q) ==> (q in u.held <==> q in t.held) && (q in t.held ==> u.held[q] == Judge(t.held[q], r)))
      && (Ends(r, q) && r.kind == Required ==>
          q in u.held && u.held[q] == Held(r.action, r.approval, r.sequence, false, false))
      && (Ends(r, q) && r.kind != Required ==> q !in u.held)
  {
  }

  lemma HeldStep(records: seq<Record>, r: Record, q: string)
    requires HeldMeans(records, q)
    ensures HeldMeans(records + [r], q)
  {
    var more := records + [r];
    var t, u := Track(None, records), Track(None, more);
    assert more[..|records|] == records;
    HeldAfter(t, r, q);
    forall i: nat
      ensures Opens(more, q, i) <==> (if Ends(r, q) then r.kind == Required && i == |records| else Opens(records, q, i))
    {
      OpensGrows(records, r, q, i);
    }
    if q in u.held {
      if Ends(r, q) {
        assert Opens(more, q, |records|);
      } else {
        var i: nat :| Opens(records, q, i);
        assert Opens(more, q, i);
      }
    }
    forall i: nat | Opens(more, q, i) ensures q in u.held && u.held[q] == HeldFor(more, q, i) {
      if i < |records| { SinceGrows(records, r, q, i); }
    }
  }

  lemma {:induction false} HeldMeaning(records: seq<Record>, q: string)
    ensures HeldMeans(records, q)
    decreases |records|
  {
    if records != [] {
      var n := |records| - 1;
      HeldMeaning(records[..n], q);
      HeldStep(records[..n], records[n], q);
      assert records[..n] + [records[n]] == records;
    }
  }

  // ------------------------------------------------------------------ findings

  /** Record `i` is the requirement open for the request of record `j` when `j` arrives. */
  ghost predicate Meets(records: seq<Record>, i: nat, j: nat) {
    i < j < |records| && records[j].request.Some? && Opens(records[..j], records[j].request.value, i)
  }

  /**
   * Record `j` succeeds under the requirement of record `i`, same request and same action, with a
   * known approval, and every approval or lease seen in between contradicts the requirement.
   */
  ghost predicate Uncovered(records: seq<Record>, i: nat, j: nat) {
    && Meets(records, i, j) && records[j].kind == Succeeded
    && records[i].action.Some? && records[j].action == records[i].action && records[i].approval.Some?
    && forall k :: i < k < j && Approves(records[k], records[j].request.value) ==> Contradicts(records[i], records[k])
  }

  /** What record `j`, with the requirement of record `i`, must show for each rule. */
  ghost predicate Because(records: seq<Record>, rule: Rule, i: nat, j: nat) {
    match rule
    case ApprovalMissing => Uncovered(records, i, j)
    case ActionLineage =>
      && Meets(records, i, j) && records[j].kind == Succeeded
      && records[i].action.Some? && records[j].action.Some? && records[i].action.value != records[j].action.value
    case ApprovalLineage =>
      && Meets(records, i, j) && (records[j].kind == ApprovalGranted || records[j].kind == LeaseHit)
      && Contradicts(records[i], records[j])
    case AuditLoss => i == j < |records| && records[j].kind == Dropped
    case StateEvicted => false
  }

  ghost predicate Names(records: seq<Record>, f: Finding, i: nat, j: nat)
    requires i < |records| && j < |records|
  {
    f.sequence == records[j].sequence && f.related == if f.rule == AuditLoss then None else Some(records[i].sequence)
  }

  ghost predicate Explained(records: seq<Record>, f: Finding) {
    exists i: nat, j: nat :: Because(records, f.rule, i, j) && Names(records, f, i, j)
  }

  lemma Unapproved(before: seq<Record>, q: string, i: nat)
    requires i < |before|
    ensures !GrantedSince(before, q, i) && !CloudedSince(before, q, i) <==>
      forall k :: i < k < |before| && Approves(before[k], q) ==> Contradicts(before[i], before[k])
  {
    forall k | i < k < |before| && Approves(before[k], q)
      ensures Contradicts(before[i], before[k]) || Grants(before, q, i, k) || Clouds(before, q, i, k)
    {
    }
  }

  /** What one record adds to the findings, given what is held for its request. */
  ghost predicate Adds(t: Tracker, r: Record, f: Finding) {
    && f.sequence == r.sequence
    && match f.rule
       case AuditLoss => r.kind == Dropped && f.related.None?
       case ApprovalLineage =>
         && (r.kind == ApprovalGranted || r.kind == LeaseHit) && r.request.Some? && r.request.value in t.held
         && var h := t.held[r.request.value];
         Mismatch(h.action, h.approval, r) && f.related == Some(h.sequence)
       case StateEvicted => false
       case _ =>
         && r.kind == Succeeded && r.request.Some? && r.request.value in t.held
         && Verdict(t.held[r.request.value], r) == Some(f.rule) && f.related == Some(t.held[r.request.value].sequence)
  }

  lemma FindingAdded(t: Tracker, r: Record, f: Finding)
    requires f.rule != StateEvicted
    ensures f in Observe(None, t, r).findings <==> f in t.findings || Adds(t, r, f)
  {
  }

  lemma NoEviction(t: Tracker, r: Record, f: Finding)
    requires f.rule == StateEvicted
    ensures f in Observe(None, t, r).findings <==> f in t.findings
  {
  }

  lemma UncoveredVerdict(before: seq<Record>, r: Record, q: string, i: nat)
    requires About(r, q) && r.kind == Succeeded && Opens(before, q, i)
    ensures Verdict(HeldFor(before, q, i), r) == Some(ApprovalMissing) <==> Uncovered(before + [r], i, |before|)
  {
    var records := before + [r];
    assert records[..|before|] == before;
    Unapproved(before, q, i);
    if Uncovered(records, i, |before|) {
      forall k | i < k < |before| && Approves(before[k], q)
        ensures Contradicts(before[i], before[k])
      {
        assert records[k] == before[k];
      }
    }
  }

  /** The last record's finding against the requirement open for it. */
  lemma LastBecause(before: seq<Record>, r: Record, q: string, i: nat, f: Finding)
    requires About(r, q) && Opens(before, q, i) && HeldMeans(before, q)
    requires f.rule != AuditLoss
    ensures Adds(Track(None, before), r, f) <==>
      Because(before + [r], f.rule, i, |before|) && Names(before + [r], f, i, |before|)
  {
    var records := before + [r];
    assert records[..|before|] == before && records[|before|] == r && records[i] == before[i];
    if r.kind == Succeeded { UncoveredVerdict(before, r, q, i); }
  }

  lemma EarlierBecause(before: seq<Record>, r: Record, rule: Rule, i: nat, j: nat)
    requires j < |before|
    ensures Because(before + [r], rule, i, j) <==> Because(before, rule, i, j)
  {
    var records := before + [r];
    assert records[..j] == before[..j];
    assert forall k :: 0 <= k < |before| ==> records[k] == before[k];
  }

  lemma EarlierExplained(before: seq<Record>, r: Record, f: Finding)
    requires Explained(before, f)
    ensures Explained(before + [r], f)
  {
    var i: nat, j: nat :| Because(before, f.rule, i, j) && Names(before, f, i, j);
    EarlierBecause(before, r, f.rule, i, j);
    assert Because(before + [r], f.rule, i, j) && Names(before + [r], f, i, j);
  }

  lemma AddedExplained(before: seq<Record>, r: Record, f: Finding)
    requires f.rule != StateEvicted && Adds(Track(None, before), r, f)
    ensures Explained(before + [r], f)
  {
    var records, n := before + [r], |before|;
    assert records[n] == r;
    if f.rule == AuditLoss {
      assert Because(records, f.rule, n, n) && Names(records, f, n, n);
    } else {
      var q := r.request.value;
      HeldMeaning(before, q);
      var i: nat :| Opens(before, q, i);
      LastBecause(before, r, q, i, f);
      assert Because(records, f.rule, i, n) && Names(records, f, i, n);
    }
  }

  lemma ExplainedAdded(before: seq<Record>, r: Record, f: Finding)
    requires f.rule != StateEvicted && Explained(before + [r], f)
    ensures Explained(before, f) || Adds(Track(None, before), r, f)
  {
    var records, n := before + [r], |before|;
    assert records[..n] == before;
    var i: nat, j: nat :| Because(records, f.rule, i, j) && Names(records, f, i, j);
    if j < n {
      EarlierBecause(before, r, f.rule, i, j);
      assert Because(before, f.rule, i, j) && Names(before, f, i, j);
    } else if f.rule != AuditLoss {
      HeldMeaning(before, r.request.value);
      LastBecause(before, r, r.request.value, i, f);
    }
  }

  /** With enough memory every finding is reported exactly for the records that explain it. */
  lemma {:induction false} FindingsExact(records: seq<Record>, f: Finding)
    ensures f in Track(None, records).findings <==> Explained(records, f)
    decreases |records|
  {
    if records != [] {
      var n := |records| - 1;
      var before, r := records[..n], records[n];
      assert before + [r] == records;
      FindingsExact(before, f);
      if f.rule == StateEvicted {
        NoEviction(Track(None, before), r, f);
      } else {
        FindingAdded(Track(None, before), r, f);
        if Explained(before, f) { EarlierExplained(before, r, f); }
        if Adds(Track(None, before), r, f) { AddedExplained(before, r, f); }
        if Explained(records, f) { ExplainedAdded(before, r, f); }
      }
    }
  }

  /** With any memory every finding but an eviction is explained, and none is lost unless state was evicted. */
  lemma FindingsSound(cap: nat, records: seq<Record>, f: Finding)
    requires cap > 0 && f.rule != StateEvicted
    ensures f in Track(Some(cap), records).findings ==> Explained(records, f)
    ensures Explained(records, f) ==> f in Track(Some(cap), records).findings || Evicted(Track(Some(cap), records))
  {
    FindingsExact(records, f);
    BoundedWithin(cap, records);
    EvictionExact(cap, records);
  }

  // ------------------------------------------------------------------ the pass over an export

  /** The report's single pass, with the capacity it ships with. */
  method BuildReport(records: seq<Record>) returns (findings: set<Finding>, pending: nat)
    ensures findings == Track(Some(8192), records).findings
    ensures pending == |Track(Some(8192), records).order|
  {
    var order: seq<string> := [];
    var held: map<string, Held> := map[];
    findings := {};
    for i := 0 to |records|
      invariant Tracker(order, held, findings) == Track(Some(CAP), records[..i])
    {
      assert records[..i + 1][..i] == records[..i];
      var r := records[i];
      if r.kind == Dropped { findings := findings + {Finding(AuditLoss, r.sequence, None)}; }
      if r.request.Some? {
        var q := r.request.value;
        match r.kind {
          case Required =>
            order, held := Without(order, q), held - {q};
            if |order| == CAP {
              var oldest := order[0];
              order, held := Without(order, oldest), held - {oldest};
              findings := findings + {Finding(StateEvicted, r.sequence, None)};
            }
            order, held := order + [q], held[q := Held(r.action, r.approval, r.sequence, false, false)];
          case ApprovalGranted => held, findings := ApproveHeld(held, findings, q, r);
          case LeaseHit => held, findings := ApproveHeld(held, findings, q, r);
          case Succeeded =>
            if q in held {
              var verdict := Verdict(held[q], r);
              if verdict.Some? { findings := findings + {Finding(verdict.value, r.sequence, Some(held[q].sequence))}; }
            }
            order, held := Without(order, q), held - {q};
          case FailedOp => order, held := Without(order, q), held - {q};
          case _ =>
        }
      }
    }
    assert records[..|records|] == records;
    pending := |order|;
  }

  method ApproveHeld(held: map<string, Held>, findings: set<Finding>, q: string, r: Record)
    returns (after: map<string, Held>, found: set<Finding>)
    ensures forall order :: Tracker(order, after, found) == Approve(Tracker(order, held, findings), q, r)
  {
    after, found := held, findings;
    if q in held {
      var h := held[q];
      if Mismatch(h.action, h.approval, r) {
        found := findings + {Finding(ApprovalLineage, r.sequence, Some(h.sequence))};
        assert held[q := h] == held;
      } else if Matching(h.action, h.approval, r) {
        after := held[q := h.(granted := true)];
      } else {
        after := held[q := h.(indeterminate := true)];
      }
    }
  }
}
