/** One audit export: contiguous unique records, with exact replays of earlier deliveries accepted. */
module AuditExport {
  import opened Wrappers

  datatype Delivery = Delivery(sequence: int, eventId: string, rowid: int, content: string)

  datatype Defect = ConflictingSequence | ConflictingEventId | OrderRegression | InteriorGap

  type Kept = seq<Delivery>

  predicate Known(kept: Kept, sequence: int) {
    exists k :: 0 <= k < |kept| && kept[k].sequence == sequence
  }

  predicate Follows(kept: Kept, d: Delivery) {
    kept == [] || (d.sequence == kept[|kept| - 1].sequence + 1 && d.rowid == kept[|kept| - 1].rowid + 1)
  }

  predicate UsesEvent(kept: Kept, id: string) {
    exists k :: 0 <= k < |kept| && kept[k].eventId == id
  }

  /** One delivery: a replay is skipped, anything else must extend the range by one. */
  function Admit(kept: Kept, d: Delivery): Result<Kept, Defect> {
    if Known(kept, d.sequence) then if d in kept then Ok(kept) else Err(ConflictingSequence)
    else if UsesEvent(kept, d.eventId) then Err(ConflictingEventId)
    else if kept != [] && (d.sequence <= kept[|kept| - 1].sequence || d.rowid <= kept[|kept| - 1].rowid) then
      Err(OrderRegression)
    else if !Follows(kept, d) then Err(InteriorGap)
    else Ok(kept + [d])
  }

  function Inspect(ds: seq<Delivery>): Result<Kept, Defect>
    decreases |ds|
  {
    if ds == [] then Ok([])
    else
      match Inspect(ds[..|ds| - 1])
      case Err(e) => Err(e)
      case Ok(kept) => Admit(kept, ds[|ds| - 1])
  }

  // ------------------------------------------------------------------ what is accepted

  /** The deliveries whose sequence number has not been delivered before. */
  function Firsts(ds: seq<Delivery>): Kept
    decreases |ds|
  {
    if ds == [] then []
    else
      var n := |ds| - 1;
      Firsts(ds[..n]) + if Known(ds[..n], ds[n].sequence) then [] else [ds[n]]
  }

  ghost predicate ReplaysExact(ds: seq<Delivery>) {
    forall i, j :: 0 <= i < j < |ds| && ds[i].sequence == ds[j].sequence ==> ds[i] == ds[j]
  }

  ghost predicate Contiguous(kept: Kept) {
    forall i :: 0 < i < |kept| ==>
      kept[i].sequence == kept[i - 1].sequence + 1 && kept[i].rowid == kept[i - 1].rowid + 1
  }

  ghost predicate DistinctEvents(kept: Kept) {
    forall i, j :: 0 <= i < j < |kept| ==> kept[i].eventId != kept[j].eventId
  }

  ghost predicate Acceptable(ds: seq<Delivery>) {
    ReplaysExact(ds) && Contiguous(Firsts(ds)) && DistinctEvents(Firsts(ds))
  }

  lemma {:induction false} FirstsCover(ds: seq<Delivery>)
    ensures forall s :: Known(Firsts(ds), s) <==> Known(ds, s)
    ensures forall d :: d in Firsts(ds) ==> d in ds
    decreases |ds|
  {
    if ds != [] {
      var n := |ds| - 1;
      FirstsCover(ds[..n]);
      assert ds == ds[..n] + [ds[n]];
      forall s ensures Known(ds, s) <==> Known(ds[..n], s) || ds[n].sequence == s { KnownLonger(ds[..n], ds[n], s); }
      if Known(ds[..n], ds[n].sequence) {
        assert Firsts(ds) == Firsts(ds[..n]);
      } else {
        forall s
          ensures Known(Firsts(ds), s) <==> Known(Firsts(ds[..n]), s) || ds[n].sequence == s
        {
          KnownLonger(Firsts(ds[..n]), ds[n], s);
        }
      }
    }
  }

  lemma KnownLonger(kept: Kept, d: Delivery, s: int)
    ensures Known(kept + [d], s) <==> Known(kept, s) || d.sequence == s
  {
    if Known(kept, s) {
      var k :| 0 <= k < |kept| && kept[k].sequence == s;
      assert (kept + [d])[k].sequence == s;
    }
    assert (kept + [d])[|kept|] == d;
  }

  lemma ReplaysShorter(ds: seq<Delivery>, n: nat)
    requires n <= |ds| && ReplaysExact(ds)
    ensures ReplaysExact(ds[..n])
  {
  }

  /** A replayed sequence number is exact if and only if the very record is already kept. */
  lemma ReplayKept(ds: seq<Delivery>, d: Delivery)
    requires ReplaysExact(ds) && Known(ds, d.sequence)
    ensures d in Firsts(ds) <==> forall i :: 0 <= i < |ds| && ds[i].sequence == d.sequence ==> ds[i] == d
  {
    FirstsCover(ds);
    assert Known(Firsts(ds), d.sequence);
    var k :| 0 <= k < |Firsts(ds)| && Firsts(ds)[k].sequence == d.sequence;
    assert Firsts(ds)[k] in ds;
    var m :| 0 <= m < |ds| && ds[m] == Firsts(ds)[k];
    if d in Firsts(ds) {
      assert d in ds;
      var o :| 0 <= o < |ds| && ds[o] == d;
      forall i | 0 <= i < |ds| && ds[i].sequence == d.sequence ensures ds[i] == d {
        if i < o { assert ds[i] == ds[o]; } else if o < i { assert ds[o] == ds[i]; }
      }
    }
  }

  lemma AdmitReplay(ds: seq<Delivery>, d: Delivery)
    requires Acceptable(ds) && Known(ds, d.sequence)
    ensures Admit(Firsts(ds), d).Ok? <==> ReplaysExact(ds + [d])
    ensures Admit(Firsts(ds), d).Ok? ==> Admit(Firsts(ds), d).value == Firsts(ds)
  {
    FirstsCover(ds);
    ReplayKept(ds, d);
    var more := ds + [d];
    if d in Firsts(ds) {
      forall i, j | 0 <= i < j < |more| && more[i].sequence == more[j].sequence ensures more[i] == more[j] {
        if j < |ds| { assert ds[i] == ds[j]; }
      }
    }
    if ReplaysExact(more) {
      forall i | 0 <= i < |ds| && ds[i].sequence == d.sequence ensures ds[i] == d {
        assert more[i] == ds[i] && more[|ds|] == d;
      }
    }
  }

  lemma {:induction false} SequencesRise(kept: Kept, i: nat, j: nat)
    requires Contiguous(kept) && i <= j < |kept|
    ensures kept[j].sequence == kept[i].sequence + (j - i)
    decreases j - i
  {
    if i < j { SequencesRise(kept, i, j - 1); }
  }

  lemma ExtendContiguous(kept: Kept, d: Delivery)
    requires Contiguous(kept)
    ensures Contiguous(kept + [d]) <==> Follows(kept, d)
  {
    var more := kept + [d];
    if Contiguous(more) && kept != [] { assert more[|kept|] == d && more[|kept| - 1] == kept[|kept| - 1]; }
  }

  lemma ExtendEvents(kept: Kept, d: Delivery)
    requires DistinctEvents(kept)
    ensures DistinctEvents(kept + [d]) <==> !UsesEvent(kept, d.eventId)
  {
    var more := kept + [d];
    if UsesEvent(kept, d.eventId) {
      var k :| 0 <= k < |kept| && kept[k].eventId == d.eventId;
      assert more[k].eventId == more[|kept|].eventId;
    }
  }

  lemma FreshExact(ds: seq<Delivery>, d: Delivery)
    requires ReplaysExact(ds) && !Known(ds, d.sequence)
    ensures ReplaysExact(ds + [d])
  {
  }

  lemma AdmitFresh(ds: seq<Delivery>, d: Delivery)
    requires Acceptable(ds) && !Known(ds, d.sequence)
    ensures ReplaysExact(ds + [d])
    ensures Admit(Firsts(ds), d).Ok? <==> Contiguous(Firsts(ds) + [d]) && DistinctEvents(Firsts(ds) + [d])
    ensures Admit(Firsts(ds), d).Ok? ==> Admit(Firsts(ds), d).value == Firsts(ds) + [d]
  {
    FirstsCover(ds);
    ExtendContiguous(Firsts(ds), d);
    ExtendEvents(Firsts(ds), d);
    FreshExact(ds, d);
  }

  lemma FirstsAppend(ds: seq<Delivery>, d: Delivery)
    ensures Firsts(ds + [d]) == Firsts(ds) + if Known(ds, d.sequence) then [] else [d]
  {
    assert (ds + [d])[..|ds|] == ds;
  }

  lemma AcceptableShorter(ds: seq<Delivery>, d: Delivery)
    requires Acceptable(ds + [d])
    ensures Acceptable(ds)
  {
    assert (ds + [d])[..|ds|] == ds;
    ReplaysShorter(ds + [d], |ds|);
    FirstsAppend(ds, d);
    var all, kept := Firsts(ds + [d]), Firsts(ds);
    assert all[..|kept|] == kept;
    assert forall i :: 0 <= i < |kept| ==> kept[i] == all[i];
  }

  lemma InspectAppend(ds: seq<Delivery>, d: Delivery)
    ensures Inspect(ds + [d]) == if Inspect(ds).Ok? then Admit(Inspect(ds).value, d) else Inspect(ds)
  {
    assert (ds + [d])[..|ds|] == ds;
  }

  lemma InspectStep(ds: seq<Delivery>, d: Delivery)
    requires Inspect(ds).Ok? <==> Acceptable(ds)
    requires Inspect(ds).Ok? ==> Inspect(ds).value == Firsts(ds)
    ensures Inspect(ds + [d]).Ok? <==> Acceptable(ds + [d])
    ensures Inspect(ds + [d]).Ok? ==> Inspect(ds + [d]).value == Firsts(ds + [d])
  {
    InspectAppend(ds, d);
    FirstsAppend(ds, d);
    if Acceptable(ds) {
      if Known(ds, d.sequence) { AdmitReplay(ds, d); assert Firsts(ds) + [] == Firsts(ds); } else { AdmitFresh(ds, d); }
    } else if Acceptable(ds + [d]) {
      AcceptableShorter(ds, d);
    }
  }

  /**
   * An export is accepted exactly when repeated sequence numbers carry identical records and the first
   * deliveries form a gap-free range with distinct event ids; then those first deliveries are the result.
   */
  lemma {:induction false} InspectExact(ds: seq<Delivery>)
    ensures Inspect(ds).Ok? <==> Acceptable(ds)
    ensures Inspect(ds).Ok? ==> Inspect(ds).value == Firsts(ds)
    decreases |ds|
  {
    if ds != [] {
      var n := |ds| - 1;
      InspectExact(ds[..n]);
      InspectStep(ds[..n], ds[n]);
      assert ds[..n] + [ds[n]] == ds;
    }
  }

  /** Why the delivery after an accepted beginning is refused: earlier reasons are absent. */
  ghost predicate RefusedFor(before: seq<Delivery>, d: Delivery, e: Defect) {
    var kept := Firsts(before);
    var seen := exists i :: 0 <= i < |before| && before[i].sequence == d.sequence;
    var used := exists i :: 0 <= i < |kept| && kept[i].eventId == d.eventId;
    match e
    case ConflictingSequence =>
      seen && exists i :: 0 <= i < |before| && before[i].sequence == d.sequence && before[i] != d
    case ConflictingEventId => !seen && used
    case OrderRegression =>
      && !seen && !used && kept != []
      && !(d.sequence > kept[|kept| - 1].sequence && d.rowid > kept[|kept| - 1].rowid)
    case InteriorGap =>
      && !seen && !used && kept != []
      && d.sequence > kept[|kept| - 1].sequence && d.rowid > kept[|kept| - 1].rowid
      && !(d.sequence == kept[|kept| - 1].sequence + 1 && d.rowid == kept[|kept| - 1].rowid + 1)
  }

  lemma DefectNext(before: seq<Delivery>, d: Delivery, e: Defect)
    requires Acceptable(before)
    ensures Admit(Firsts(before), d) == Err(e) <==> RefusedFor(before, d, e)
  {
    FirstsCover(before);
    assert Known(before, d.sequence) <==> exists i :: 0 <= i < |before| && before[i].sequence == d.sequence;
    assert UsesEvent(Firsts(before), d.eventId) <==>
      exists i :: 0 <= i < |Firsts(before)| && Firsts(before)[i].eventId == d.eventId;
    if Known(before, d.sequence) { ReplayKept(before, d); }
  }

  /** Everything before delivery `n` is acceptable, and it is refused for this reason. */
  ghost predicate DefectAt(ds: seq<Delivery>, n: nat, e: Defect) {
    n < |ds| && Acceptable(ds[..n]) && RefusedFor(ds[..n], ds[n], e)
  }

  lemma DefectBefore(ds: seq<Delivery>, n: nat, k: nat, e: Defect)
    requires k < n <= |ds|
    ensures DefectAt(ds[..n], k, e) <==> DefectAt(ds, k, e)
  {
    assert ds[..n][..k] == ds[..k] && ds[..n][k] == ds[k];
  }

  lemma NoDefectBefore(ds: seq<Delivery>, k: nat, n: nat, e: Defect)
    requires k < n <= |ds| && Acceptable(ds[..n])
    ensures !DefectAt(ds, k, e)
  {
    if DefectAt(ds, k, e) {
      DefectNext(ds[..k], ds[k], e);
      InspectExact(ds[..k]);
      assert ds[..k + 1][..k] == ds[..k] && ds[..n][..k + 1] == ds[..k + 1];
      StuckInspect(ds[..n], k + 1);
      InspectExact(ds[..n]);
    }
  }

  /** The defect reported is that of the first delivery that cannot be accepted after those before it. */
  lemma {:induction false} DefectExact(ds: seq<Delivery>, e: Defect)
    ensures Inspect(ds) == Err(e) <==> exists n: nat :: DefectAt(ds, n, e)
    decreases |ds|
  {
    if ds != [] {
      var n := |ds| - 1;
      DefectExact(ds[..n], e);
      InspectExact(ds[..n]);
      forall k: nat | k < n ensures DefectAt(ds[..n], k, e) <==> DefectAt(ds, k, e) { DefectBefore(ds, n, k, e); }
      if Acceptable(ds[..n]) {
        DefectNext(ds[..n], ds[n], e);
        assert DefectAt(ds, n, e) <==> Inspect(ds) == Err(e);
        forall k: nat | k < n ensures !DefectAt(ds, k, e) { NoDefectBefore(ds, k, n, e); }
      }
    }
  }

  // ------------------------------------------------------------------ replays

  lemma {:induction false} InspectFrom(a: seq<Delivery>, b: seq<Delivery>, rest: seq<Delivery>)
    requires Inspect(a) == Inspect(b)
    ensures Inspect(a + rest) == Inspect(b + rest)
    decreases |rest|
  {
    if rest == [] {
      assert a + rest == a && b + rest == b;
    } else {
      var n := |rest| - 1;
      InspectFrom(a, b, rest[..n]);
      assert a + rest == (a + rest[..n]) + [rest[n]] && b + rest == (b + rest[..n]) + [rest[n]];
      InspectAppend(a + rest[..n], rest[n]);
      InspectAppend(b + rest[..n], rest[n]);
    }
  }

  lemma ReplaySkipped(head: seq<Delivery>, i: nat)
    requires i < |head|
    ensures Inspect(head + [head[i]]) == Inspect(head)
  {
    InspectAppend(head, head[i]);
    if Inspect(head).Ok? {
      InspectExact(head);
      assert Known(head, head[i].sequence);
      FirstsCover(head);
      ReplayKept(head, head[i]);
      forall k | 0 <= k < |head| && head[k].sequence == head[i].sequence ensures head[k] == head[i] {
        if k < i { assert head[k] == head[i]; } else if i < k { assert head[i] == head[k]; }
      }
    }
  }

  /** Delivering a record again, anywhere after its first delivery, changes neither result nor defect. */
  lemma ReplayInvariant(head: seq<Delivery>, i: nat, rest: seq<Delivery>)
    requires i < |head|
    ensures Inspect(head + [head[i]] + rest) == Inspect(head + rest)
  {
    ReplaySkipped(head, i);
    InspectFrom(head + [head[i]], head, rest);
  }

  /** The dictionaries the pass keeps beside the records. */
  ghost predicate Indexed(kept: Kept, bySequence: map<int, Delivery>, events: set<string>) {
    && (forall s :: s in bySequence <==> Known(kept, s))
    && (forall s :: s in bySequence ==> bySequence[s] in kept && bySequence[s].sequence == s)
    && (forall x :: x in events <==> UsesEvent(kept, x))
  }

  lemma IndexedNext(kept: Kept, bySequence: map<int, Delivery>, events: set<string>, d: Delivery)
    requires Indexed(kept, bySequence, events)
    ensures Indexed(kept + [d], bySequence[d.sequence := d], events + {d.eventId})
  {
    forall s ensures Known(kept + [d], s) <==> Known(kept, s) || d.sequence == s { KnownLonger(kept, d, s); }
    EventLonger(kept, d);
  }

  method AdmitNext(kept: Kept, bySequence: map<int, Delivery>, events: set<string>, d: Delivery)
    returns (r: Result<Kept, Defect>, numbers: map<int, Delivery>, ids: set<string>)
    requires Contiguous(kept) && Indexed(kept, bySequence, events)
    ensures r == Admit(kept, d)
    ensures r.Ok? ==> Indexed(r.value, numbers, ids)
  {
    numbers, ids := bySequence, events;
    if d.sequence in bySequence {
      OnlyOne(kept, bySequence[d.sequence], d);
      r := if bySequence[d.sequence] != d then Err(ConflictingSequence) else Ok(kept);
      return;
    }
    if d.eventId in events { r := Err(ConflictingEventId); return; }
    if kept != [] {
      var previous := kept[|kept| - 1];
      if d.sequence <= previous.sequence || d.rowid <= previous.rowid { r := Err(OrderRegression); return; }
      if d.sequence != previous.sequence + 1 || d.rowid != previous.rowid + 1 { r := Err(InteriorGap); return; }
    }
    IndexedNext(kept, bySequence, events, d);
    r, numbers, ids := Ok(kept + [d]), bySequence[d.sequence := d], events + {d.eventId};
  }

  /** The pass over an export file. */
  method InspectExport(ds: seq<Delivery>) returns (r: Result<Kept, Defect>, deliveries: nat)
    ensures r == Inspect(ds)
    ensures r.Ok? ==> deliveries == |ds|
  {
    var bySequence: map<int, Delivery> := map[];
    var events: set<string> := {};
    var kept: Kept := [];
    deliveries := 0;
    for i := 0 to |ds|
      invariant deliveries == i
      invariant Inspect(ds[..i]) == Ok(kept)
      invariant Indexed(kept, bySequence, events)
    {
      assert ds[..i + 1][..i] == ds[..i];
      InspectExact(ds[..i]);
      deliveries := deliveries + 1;
      r, bySequence, events := AdmitNext(kept, bySequence, events, ds[i]);
      if r.Err? {
        StuckInspect(ds, i + 1);
        return;
      }
      kept := r.value;
    }
    assert ds[..|ds|] == ds;
    r := Ok(kept);
  }

  lemma EventLonger(kept: Kept, d: Delivery)
    ensures forall x :: UsesEvent(kept + [d], x) <==> UsesEvent(kept, x) || d.eventId == x
  {
    forall x | UsesEvent(kept, x) ensures UsesEvent(kept + [d], x) {
      var k :| 0 <= k < |kept| && kept[k].eventId == x;
      assert (kept + [d])[k].eventId == x;
    }
    assert (kept + [d])[|kept|] == d;
  }

  /** In a gap-free range the stored record is the only one with its sequence number. */
  lemma OnlyOne(kept: Kept, stored: Delivery, d: Delivery)
    requires Contiguous(kept) && stored in kept && stored.sequence == d.sequence
    ensures d in kept <==> d == stored
  {
    if d in kept {
      var i :| 0 <= i < |kept| && kept[i] == stored;
      var j :| 0 <= j < |kept| && kept[j] == d;
      if i <= j { SequencesRise(kept, i, j); } else { SequencesRise(kept, j, i); }
    }
  }

  lemma {:induction false} StuckInspect(ds: seq<Delivery>, n: nat)
    requires n <= |ds|
    ensures Inspect(ds[..n]).Err? ==> Inspect(ds) == Inspect(ds[..n])
    decreases |ds| - n
  {
    if n == |ds| {
      assert ds[..n] == ds;
    } else {
      StuckInspect(ds, n + 1);
      assert ds[..n + 1][..n] == ds[..n];
    }
  }

  // ------------------------------------------------------------------ two copies of a range

  function ByNumber(kept: Kept): map<int, Delivery> {
    if kept == [] then map[] else ByNumber(kept[..|kept| - 1])[kept[|kept| - 1].sequence := kept[|kept| - 1]]
  }

  datatype Mismatch = RangeMismatch | RecordMismatch

  /** Compare a snapshot with a reference, number by number. */
  function CrossCheck(actual: Kept, expected: Kept): Option<Mismatch> {
    if ByNumber(actual).Keys != ByNumber(expected).Keys then Some(RangeMismatch)
    else if ByNumber(actual) != ByNumber(expected) then Some(RecordMismatch)
    else None
  }

  lemma {:induction false} ByNumberHolds(kept: Kept)
    requires Contiguous(kept)
    ensures forall i :: 0 <= i < |kept| ==>
      kept[i].sequence in ByNumber(kept) && ByNumber(kept)[kept[i].sequence] == kept[i]
    ensures forall s :: s in ByNumber(kept) ==> kept != [] && kept[0].sequence <= s < kept[0].sequence + |kept|
  {
    if kept != [] {
      var n := |kept| - 1;
      ByNumberHolds(kept[..n]);
      SequencesRise(kept, 0, n);
      forall i | 0 <= i < n
        ensures kept[i].sequence != kept[n].sequence && kept[..n][i] == kept[i]
      {
        SequencesRise(kept, i, n);
      }
    }
  }

  /** Accepted snapshots cross-check exactly when they are the same records in the same order. */
  lemma CrossCheckExact(actual: Kept, expected: Kept)
    requires Contiguous(actual) && Contiguous(expected)
    ensures CrossCheck(actual, expected).None? <==> actual == expected
  {
    ByNumberHolds(actual);
    ByNumberHolds(expected);
    if CrossCheck(actual, expected).None? && (actual != [] || expected != []) {
      var both := ByNumber(actual);
      SameEnds(actual, expected, both);
      forall i | 0 <= i < |actual| ensures actual[i] == expected[i] {
        SequencesRise(actual, 0, i);
        SequencesRise(expected, 0, i);
      }
    }
  }

  /** A difference in the numbers is reported before a difference in the records. */
  lemma MismatchExact(actual: Kept, expected: Kept)
    requires Contiguous(actual) && Contiguous(expected)
    ensures CrossCheck(actual, expected) == Some(RangeMismatch) <==>
      !(|actual| == |expected| && (actual != [] ==> actual[0].sequence == expected[0].sequence))
    ensures CrossCheck(actual, expected) == Some(RecordMismatch) <==>
      && actual != expected && |actual| == |expected| && actual[0].sequence == expected[0].sequence
  {
    ByNumberHolds(actual);
    ByNumberHolds(expected);
    CrossCheckExact(actual, expected);
    var a, b := ByNumber(actual), ByNumber(expected);
    if a.Keys == b.Keys && (actual != [] || expected != []) { SameEnds(actual, expected, a); }
    if |actual| == |expected| > 0 && actual[0].sequence == expected[0].sequence {
      forall s ensures s in a <==> actual[0].sequence <= s < actual[0].sequence + |actual| { NumbersOf(actual, s); }
      forall s ensures s in b <==> actual[0].sequence <= s < actual[0].sequence + |actual| { NumbersOf(expected, s); }
    }
  }

  lemma NumbersOf(kept: Kept, s: int)
    requires Contiguous(kept) && kept != []
    ensures s in ByNumber(kept) <==> kept[0].sequence <= s < kept[0].sequence + |kept|
  {
    ByNumberHolds(kept);
    if kept[0].sequence <= s < kept[0].sequence + |kept| { SequencesRise(kept, 0, s - kept[0].sequence); }
  }

  lemma SameEnds(a: Kept, b: Kept, m: map<int, Delivery>)
    requires Contiguous(a) && Contiguous(b) && (a != [] || b != [])
    requires forall i :: 0 <= i < |a| ==> a[i].sequence in m
    requires forall i :: 0 <= i < |b| ==> b[i].sequence in m
    requires forall s :: s in m ==> a != [] && a[0].sequence <= s < a[0].sequence + |a|
    requires forall s :: s in m ==> b != [] && b[0].sequence <= s < b[0].sequence + |b|
    ensures |a| == |b| > 0 && a[0].sequence == b[0].sequence
  {
    if a != [] { assert a[0].sequence in m; }
    if b != [] { assert b[0].sequence in m; }
    SequencesRise(a, 0, |a| - 1);
    SequencesRise(b, 0, |b| - 1);
  }
}
