/** Anomaly findings over one audit export: bounded memory against unbounded, and what each finding means. */
module AuditAnomalies {
  import opened Wrappers

  const CAP: nat := 8192

  datatype Kind = Required | ApprovalGranted | LeaseHit | Succeeded | FailedOp | Dropped | Unrelated

  /** One observed record; identifiers that are missing or malformed are `None`. */
  datatype Record = Record(sequence: nat, kind: Kind, request: Option<string>, action: Option<string>,
                           approval: Option<string>)

  datatype Held = Held(action: Option<string>, approval: Option<string>, sequence: nat, granted: bool,
                       indeterminate: bool)

  datatype Rule = ApprovalMissing | ApprovalLineage | ActionLineage | AuditLoss | StateEvicted

  datatype Finding = Finding(rule: Rule, sequence: nat, related: Option<nat>)

  /** Requirements still open, oldest first in `order`, and the findings so far. */
  datatype Tracker = Tracker(order: seq<string>, held: map<string, Held>, findings: set<Finding>)

  const START := Tracker([], map[], {})

  function Without(order: seq<string>, q: string): seq<string> {
    if order == [] then [] else (if order[0] == q then [] else [order[0]]) + Without(order[1..], q)
  }

  predicate Differ(a: Option<string>, b: Option<string>) {
    a.Some? && b.Some? && a != b
  }

  predicate Mismatch(action: Option<string>, approval: Option<string>, r: Record) {
    Differ(action, r.action) || Differ(approval, r.approval)
  }

  predicate Matching(action: Option<string>, approval: Option<string>, r: Record) {
    r.kind == ApprovalGranted && r.action.Some? && r.action == action && r.approval.Some? && r.approval == approval
  }

  function Judge(h: Held, r: Record): Held {
    if Mismatch(h.action, h.approval, r) then h
    else if Matching(h.action, h.approval, r) then h.(granted := true)
    else h.(indeterminate := true)
  }

  /** What a successful operation reveals about the requirement it closes. */
  function Verdict(h: Held, r: Record): Option<Rule> {
    if h.action.None? || r.action.None? then None
    else if h.action != r.action then Some(ActionLineage)
    else if !h.granted && !h.indeterminate && h.approval.Some? then Some(ApprovalMissing)
    else None
  }

  function Drop(t: Tracker, q: string): Tracker {
    t.(order := Without(t.order, q), held := t.held - {q})
  }

  function Add(t: Tracker, rule: Rule, r: Record, related: Option<nat>): Tracker {
    t.(findings := t.findings + {Finding(rule, r.sequence, related)})
  }

  /** `None` is unbounded memory. */
  function MakeRoom(cap: Option<nat>, t: Tracker, r: Record): Tracker {
    if cap == Some(|t.order|) && t.order != [] then Add(Drop(t, t.order[0]), StateEvicted, r, None) else t
  }

  function Open(t: Tracker, q: string, r: Record): Tracker {
    t.(order := t.order + [q], held := t.held[q := Held(r.action, r.approval, r.sequence, false, false)])
  }

  function Lifecycle(cap: Option<nat>, t: Tracker, q: string, r: Record): Tracker {
    match r.kind
    case Required => Open(MakeRoom(cap, Drop(t, q), r), q, r)
    case ApprovalGranted => Approve(t, q, r)
    case LeaseHit => Approve(t, q, r)
    case Succeeded => Close(t, q, r)
    case FailedOp => Drop(t, q)
    case _ => t
  }

  function Approve(t: Tracker, q: string, r: Record): Tracker {
    if q !in t.held then t
    else
      var h := t.held[q];
      var u := t.(held := t.held[q := Judge(h, r)]);
      if Mismatch(h.action, h.approval, r) then Add(u, ApprovalLineage, r, Some(h.sequence)) else u
  }

  function Close(t: Tracker, q: string, r: Record): Tracker {
    if q !in t.held || Verdict(t.held[q], r).None? then Drop(t, q)
    else Add(Drop(t, q), Verdict(t.held[q], r).value, r, Some(t.held[q].sequence))
  }

  function Observe(cap: Option<nat>, t: Tracker, r: Record): Tracker {
    var u := if r.kind == Dropped then Add(t, AuditLoss, r, None) else t;
    match r.request
    case None => u
    case Some(q) => Lifecycle(cap, u, q, r)
  }

  function Track(cap: Option<nat>, records: seq<Record>): Tracker
    decreases |records|
  {
    if records == [] then START else Observe(cap, Track(cap, records[..|records| - 1]), records[|records| - 1])
  }

  // ------------------------------------------------------------------ the ordered table

  ghost predicate NoRepeats(order: seq<string>) {
    forall i, j :: 0 <= i < j < |order| ==> order[i] != order[j]
  }

  ghost predicate Tidy(t: Tracker) {
    NoRepeats(t.order) && forall q :: q in t.order <==> q in t.held
  }

  lemma {:induction false} WithoutMembers(order: seq<string>, q: string)
    requires NoRepeats(order)
    ensures NoRepeats(Without(order, q))
    ensures forall x :: x in Without(order, q) <==> x in order && x != q
    ensures |Without(order, q)| == if q in order then |order| - 1 else |order|
  {
    if order != [] {
      var rest := order[1..];
      forall i, j | 0 <= i < j < |rest|
        ensures rest[i] != rest[j]
      {
        assert rest[i] == order[i + 1] && rest[j] == order[j + 1];
      }
      WithoutMembers(rest, q);
      assert order == [order[0]] + rest;
      assert forall i :: 0 <= i < |rest| ==> rest[i] == order[i + 1];
      assert order[0] !in rest;
    }
  }

  lemma DropTidy(t: Tracker, q: string)
    requires Tidy(t)
    ensures Tidy(Drop(t, q)) && q !in Drop(t, q).held
    ensures |Drop(t, q).order| == if q in t.held then |t.order| - 1 else |t.order|
  {
    WithoutMembers(t.order, q);
  }

  lemma OpenTidy(t: Tracker, q: string, r: Record)
    requires Tidy(t) && q !in t.held
    ensures Tidy(Open(t, q, r))
  {
  }

  lemma ObserveTidy(cap: Option<nat>, t: Tracker, r: Record)
    requires Tidy(t)
    ensures Tidy(Observe(cap, t, r))
  {
    var u := if r.kind == Dropped then Add(t, AuditLoss, r, None) else t;
    if r.request.Some? {
      var q := r.request.value;
      DropTidy(u, q);
      if r.kind == Required {
        var d := Drop(u, q);
        if d.order != [] { DropTidy(d, d.order[0]); }
        OpenTidy(MakeRoom(cap, d, r), q, r);
      }
    }
  }

  lemma {:induction false} TrackTidy(cap: Option<nat>, records: seq<Record>)
    ensures Tidy(Track(cap, records))
    decreases |records|
  {
    if records != [] {
      TrackTidy(cap, records[..|records| - 1]);
      ObserveTidy(cap, Track(cap, records[..|records| - 1]), records[|records| - 1]);
    }
  }

  // ------------------------------------------------------------------ bounded memory

  /** Nothing the bounded tracker holds or finds differs from the unbounded one. */
  ghost predicate Within(b: Tracker, u: Tracker) {
    && (forall q :: q in b.held ==> q in u.held && u.held[q] == b.held[q])
    && (forall f :: f in b.findings && f.rule != StateEvicted ==> f in u.findings)
  }

  lemma ObserveWithin(cap: nat, b: Tracker, u: Tracker, r: Record)
    requires Within(b, u)
    ensures Within(Observe(Some(cap), b, r), Observe(None, u, r))
  {
  }

  /** Forgetting old requirements loses findings but never invents one. */
  lemma {:induction false} BoundedWithin(cap: nat, records: seq<Record>)
    ensures Within(Track(Some(cap), records), Track(None, records))
    decreases |records|
  {
    if records != [] {
      var n := |records| - 1;
      BoundedWithin(cap, records[..n]);
      ObserveWithin(cap, Track(Some(cap), records[..n]), Track(None, records[..n]), records[n]);
    }
  }

  ghost predicate Evicted(t: Tracker) {
    exists f :: f in t.findings && f.rule == StateEvicted
  }

  /** Unbounded memory would never have held more than `cap` requirements at once. */
  ghost predicate Fits(cap: nat, records: seq<Record>) {
    forall n :: 0 <= n <= |records| ==> |Track(None, records[..n]).order| <= cap
  }

  lemma EvictedStays(cap: nat, t: Tracker, r: Record)
    requires Evicted(t)
    ensures Evicted(Observe(Some(cap), t, r))
  {
    var f :| f in t.findings && f.rule == StateEvicted;
    assert f in Observe(Some(cap), t, r).findings;
  }

  lemma SameUntilFull(cap: nat, t: Tracker, r: Record)
    requires cap > 0 && Tidy(t) && !Evicted(t) && |t.order| <= cap
    ensures |Observe(None, t, r).order| <= cap ==>
      Observe(Some(cap), t, r) == Observe(None, t, r) && !Evicted(Observe(Some(cap), t, r))
    ensures |Observe(None, t, r).order| > cap ==> Evicted(Observe(Some(cap), t, r))
  {
    if r.request.Some? {
      WithoutMembers(t.order, r.request.value);
      if r.kind == Required && |Without(t.order, r.request.value)| == cap {
        assert Finding(StateEvicted, r.sequence, None) in Observe(Some(cap), t, r).findings;
      }
    }
  }

  /** The report says state was evicted exactly when memory was too small; otherwise it is the unbounded report. */
  lemma {:induction false} EvictionExact(cap: nat, records: seq<Record>)
    requires cap > 0
    ensures !Evicted(Track(Some(cap), records)) <==> Fits(cap, records)
    ensures Fits(cap, records) ==> Track(Some(cap), records) == Track(None, records)
    decreases |records|
  {
    if records == [] {
      assert forall n :: 0 <= n <= 0 ==> records[..n] == [];
    } else {
      var n := |records| - 1;
      var b := Track(Some(cap), records[..n]);
      EvictionExact(cap, records[..n]);
      FitsLonger(cap, records);
      if Fits(cap, records[..n]) {
        TrackTidy(None, records[..n]);
        assert records[..n][..n] == records[..n];
        SameUntilFull(cap, b, records[n]);
      } else {
        EvictedStays(cap, b, records[n]);
      }
    }
  }

  lemma FitsLonger(cap: nat, records: seq<Record>)
    requires |records| > 0
    ensures Fits(cap, records) <==> Fits(cap, records[..|records| - 1]) && |Track(None, records).order| <= cap
  {
    var n := |records| - 1;
    assert records[..|records|] == records;
    forall m | 0 <= m <= n ensures records[..n][..m] == records[..m] {}
    if Fits(cap, records) {
      forall m | 0 <= m <= n
        ensures |Track(None, records[..n][..m]).order| <= cap
      {
        assert records[..n][..m] == records[..m];
      }
    }
    if Fits(cap, records[..n]) && |Track(None, records).order| <= cap {
      forall m | 0 <= m <= |records| ensures |Track(None, records[..m]).order| <= cap {
        if m <= n { assert records[..n][..m] == records[..m]; } else { assert records[..m] == records; }
      }
    }
  }

  lemma RoomSize(cap: nat, d: Tracker, r: Record)
    requires cap > 0 && Tidy(d) && |d.order| <= cap
    ensures |MakeRoom(Some(cap), d, r).order| < cap
  {
    if |d.order| == cap {
      assert d.order[0] in d.held;
      DropTidy(d, d.order[0]);
    }
  }

  lemma ObserveSize(cap: nat, t: Tracker, r: Record)
    requires cap > 0 && Tidy(t) && |t.order| <= cap
    ensures |Observe(Some(cap), t, r).order| <= cap
  {
    if r.request.Some? {
      DropTidy(t, r.request.value);
      if r.kind == Required { RoomSize(cap, Drop(t, r.request.value), r); }
    }
  }

  /** Memory stays within the capacity on every export. */
  lemma {:induction false} BoundedSize(cap: nat, records: seq<Record>)
    requires cap > 0
    ensures |Track(Some(cap), records).order| <= cap
    decreases |records|
  {
    if records != [] {
      var n := |records| - 1;
      BoundedSize(cap, records[..n]);
      TrackTidy(Some(cap), records[..n]);
      ObserveSize(cap, Track(Some(cap), records[..n]), records[n]);
    }
  }

  // ------------------------------------------------------------------ what is forgotten

  /** The newest of a list of open requirements, in order. */
  ghost predicate Newest(some: seq<string>, all: seq<string>) {
    |some| <= |all| && some == all[|all| - |some|..]
  }

  lemma {:induction false} WithoutConcat(a: seq<string>, b: seq<string>, q: string)
    ensures Without(a + b, q) == Without(a, q) + Without(b, q)
  {
    if a == [] {
      assert a + b == b;
    } else {
      var first := if a[0] == q then [] else [a[0]];
      WithoutConcat(a[1..], b, q);
      assert (a + b)[0] == a[0] && (a + b)[1..] == a[1..] + b;
      Regroup(first, Without(a[1..], q), Without(b, q));
    }
  }

  lemma Regroup(a: seq<string>, b: seq<string>, c: seq<string>)
    ensures a + (b + c) == (a + b) + c
  {
  }

  lemma NewestWithout(some: seq<string>, all: seq<string>, q: string)
    requires Newest(some, all)
    ensures Newest(Without(some, q), Without(all, q))
  {
    var n := |all| - |some|;
    WithoutConcat(all[..n], some, q);
    assert all[..n] + some == all;
  }

  lemma NewestRoom(cap: nat, d: Tracker, all: seq<string>, r: Record)
    requires Newest(d.order, all) && NoRepeats(d.order)
    ensures Newest(MakeRoom(Some(cap), d, r).order, all)
  {
    if d.order != [] && cap == |d.order| {
      FirstDropped(d.order);
      var n := |all| - |d.order|;
      assert all[n..][1..] == all[n + 1..];
    }
  }

  /** Removing the oldest requirement leaves the others as they are. */
  lemma FirstDropped(order: seq<string>)
    requires NoRepeats(order) && order != []
    ensures Without(order, order[0]) == order[1..]
  {
    AbsentWithout(order[1..], order[0]);
  }

  lemma {:induction false} AbsentWithout(order: seq<string>, q: string)
    requires q !in order
    ensures Without(order, q) == order
  {
    if order != [] {
      AbsentWithout(order[1..], q);
      assert order == [order[0]] + order[1..];
    }
  }

  /** What a record does to the order of the open requirements. */
  lemma OrderAfter(cap: Option<nat>, t: Tracker, r: Record)
    ensures r.request.None? ==> Observe(cap, t, r).order == t.order
    ensures r.request.Some? && r.kind == Required ==>
      var q := r.request.value;
      Observe(cap, t, r).order == MakeRoom(cap, Drop(t, q), r).order + [q]
    ensures r.request.Some? && (r.kind == Succeeded || r.kind == FailedOp) ==>
      Observe(cap, t, r).order == Without(t.order, r.request.value)
    ensures r.request.Some? && r.kind != Required && r.kind != Succeeded && r.kind != FailedOp ==>
      Observe(cap, t, r).order == t.order
  {
  }

  lemma ObserveNewest(cap: nat, b: Tracker, u: Tracker, r: Record)
    requires Newest(b.order, u.order) && Tidy(b)
    ensures Newest(Observe(Some(cap), b, r).order, Observe(None, u, r).order)
  {
    OrderAfter(Some(cap), b, r);
    OrderAfter(None, u, r);
    if r.request.Some? {
      var q := r.request.value;
      NewestWithout(b.order, u.order, q);
      if r.kind == Required {
        DropTidy(b, q);
        NewestRoom(cap, Drop(b, q), Drop(u, q).order, r);
        NewestLonger(MakeRoom(Some(cap), Drop(b, q), r).order, Drop(u, q).order, q);
      }
    }
  }

  lemma NewestLonger(some: seq<string>, all: seq<string>, q: string)
    requires Newest(some, all)
    ensures Newest(some + [q], all + [q])
  {
  }

  /** Over every export, what the bounded tracker still holds are the newest open requirements, in order. */
  lemma {:induction false} OldestForgotten(cap: nat, records: seq<Record>)
    ensures Newest(Track(Some(cap), records).order, Track(None, records).order)
    decreases |records|
  {
    if records != [] {
      var n := |records| - 1;
      var b, u := Track(Some(cap), records[..n]), Track(None, records[..n]);
      OldestForgotten(cap, records[..n]);
      TrackTidy(Some(cap), records[..n]);
      ObserveNewest(cap, b, u, records[n]);
    }
  }

  /** This record opens a requirement while `cap` others are held. */
  ghost predicate NeedsRoom(cap: nat, t: Tracker, r: Record) {
    && r.kind == Required && r.request.Some?
    && |t.order| == cap + if r.request.value in t.held then 1 else 0
  }

  ghost predicate Overflows(cap: nat, records: seq<Record>, j: nat) {
    j < |records| && NeedsRoom(cap, Track(Some(cap), records[..j]), records[j])
  }

  lemma EvictionAdded(cap: nat, t: Tracker, r: Record, f: Finding)
    requires cap > 0 && Tidy(t) && f.rule == StateEvicted
    ensures f in Observe(Some(cap), t, r).findings <==>
      f in t.findings || (NeedsRoom(cap, t, r) && f == Finding(StateEvicted, r.sequence, None))
  {
    if r.request.Some? { DropTidy(t, r.request.value); }
  }

  /** An eviction is reported exactly for the records that needed room, under their own number. */
  lemma {:induction false} EvictionsExact(cap: nat, records: seq<Record>, f: Finding)
    requires cap > 0 && f.rule == StateEvicted
    ensures f in Track(Some(cap), records).findings <==>
      exists j: nat :: Overflows(cap, records, j) && f == Finding(StateEvicted, records[j].sequence, None)
    decreases |records|
  {
    if records != [] {
      var n := |records| - 1;
      var before := records[..n];
      EvictionsExact(cap, before, f);
      TrackTidy(Some(cap), before);
      EvictionAdded(cap, Track(Some(cap), before), records[n], f);
      forall j: nat | j < n ensures Overflows(cap, records, j) <==> Overflows(cap, before, j) {
        assert records[..j] == before[..j];
      }
      assert Overflows(cap, records, n) <==> NeedsRoom(cap, Track(Some(cap), before), records[n]);
    }
  }
}
