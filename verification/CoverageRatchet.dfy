/** The coverage policy: exact ratios, the least additional coverage that closes a gap, and the ratchet. */
module CoverageRatchet {
  import opened Wrappers

  datatype Metric = Metric(count: int, covered: int)

  /** What `ratio` accepts: anything else is a policy error. */
  predicate Measured(m: Metric) {
    m.count > 0 && 0 <= m.covered <= m.count
  }

  function Ratio(m: Metric): real
    requires Measured(m)
  {
    m.covered as real / m.count as real
  }

  /** Something was counted, and what was covered is a part of it. */
  lemma MeasuredExact(m: Metric)
    ensures Measured(m) <==> m.count >= 1 && 0.0 <= m.covered as real / m.count as real <= 1.0
  {
    if m.count >= 1 {
      CrossMultiply(m.covered, m.count, 0, 1);
      CrossMultiply(1, 1, m.covered, m.count);
    }
  }

  /** The comparison of exact fractions, on whole numbers. */
  predicate Reaches(m: Metric, num: int, den: int) {
    m.covered * den >= num * m.count
  }

  lemma ReachesRatio(m: Metric, num: int, den: int)
    requires Measured(m) && den > 0
    ensures Reaches(m, num, den) <==> Ratio(m) >= num as real / den as real
  {
    CrossMultiply(m.covered, m.count, num, den);
  }

  // ------------------------------------------------------------------ gaps

  lemma CrossMultiply(a: int, b: int, c: int, d: int)
    requires b > 0 && d > 0
    ensures a as real / b as real < c as real / d as real <==> a * d < c * b
  {
    var x, y := a as real / b as real, c as real / d as real;
    var rb, rd := b as real, d as real;
    assert x * rb == a as real && y * rd == c as real;
    assert (a * d) as real == x * (rb * rd);
    assert (c * b) as real == y * (rb * rd);
    assert rb * rd > 0.0;
    Scale(x, y, rb * rd);
  }

  lemma Scale(x: real, y: real, k: real)
    requires k > 0.0
    ensures x < y <==> x * k < y * k
  {
    if x < y { assert (y - x) * k > 0.0; }
    if x > y { assert (x - y) * k > 0.0; }
  }

  /** Ceiling division as the policy writes it, less what is covered already. */
  function Needed(m: Metric, num: int, den: int): int
    requires den > 0
  {
    -(-(m.count * num) / den) - m.covered
  }

  lemma Ceiling(x: int, den: int)
    requires den > 0
    ensures var q := -(-x / den); den * (q - 1) < x <= den * q
  {
    var q := -(-x / den);
    assert -x == den * (-x / den) + -x % den;
    assert den * (-q) == -(den * q);
    assert den * (q - 1) == den * q - den;
  }

  /** A reported gap is the least number of further covered items that meets the floor, and it is attainable. */
  lemma NeededLeast(m: Metric, num: int, den: int, k: int)
    requires Measured(m) && 0 <= num <= den && den > 0
    requires Ratio(m) < num as real / den as real && 0 <= k <= m.count - m.covered
    ensures 1 <= Needed(m, num, den) <= m.count - m.covered
    ensures (m.covered + k) as real / m.count as real >= num as real / den as real <==> Needed(m, num, den) <= k
  {
    var x := m.count * num;
    var q := -(-x / den);
    Ceiling(x, den);
    CrossMultiply(m.covered, m.count, num, den);
    CrossMultiply(m.covered + k, m.count, num, den);
    Bounds(m.covered, q, den, x);
    Bounds(m.covered + k, q, den, x);
    assert x <= den * m.count by { Monotone(num, den, m.count); }
    Bounds(m.count, q, den, x);
  }

  lemma Monotone(num: int, den: int, count: int)
    requires num <= den && count > 0
    ensures count * num <= den * count
  {
  }

  lemma Bounds(covered: int, q: int, den: int, x: int)
    requires den > 0 && den * (q - 1) < x <= den * q
    ensures covered * den < x <==> covered < q
  {
    if covered < q { Monotone(covered, q - 1, den); assert covered * den <= den * (q - 1); }
    if covered >= q { Monotone(q, covered, den); assert covered * den >= den * q; }
  }

  // ------------------------------------------------------------------ evaluation

  datatype Row = Row(lines: Metric, branches: Metric)

  datatype Tier = Kernel | Enforcement | General

  datatype Axis = Lines | Branches

  type Baseline = map<string, Row>

  function Part(r: Row, axis: Axis): Metric {
    match axis case Lines => r.lines case Branches => r.branches
  }

  /** Percentages; enforcement and general code have no line target. */
  function Target(tier: Tier, axis: Axis): Option<int> {
    match (tier, axis)
    case (Kernel, _) => Some(100)
    case (Enforcement, Branches) => Some(85)
    case (General, Branches) => Some(70)
    case _ => None
  }

  predicate Valid(r: Row) {
    Measured(r.lines) && Measured(r.branches)
  }

  datatype Package = Package(name: string, tier: Tier, measured: Row)

  datatype Reason = BelowTier | BelowBaseline | BelowTrusted

  /** A floor that was missed, as a fraction; what is missing is computed from it. */
  datatype Gap = Gap(name: string, axis: Axis, reason: Reason, measured: Metric, num: int, den: int)

  /** The `additional_covered` of a gap. */
  function Additional(g: Gap): int
    requires g.den > 0
  {
    Needed(g.measured, g.num, g.den)
  }

  predicate Floored(floors: Baseline) {
    forall name :: name in floors ==> Valid(floors[name])
  }

  function TierGap(p: Package, axis: Axis): seq<Gap> {
    match Target(p.tier, axis)
    case None => []
    case Some(minimum) =>
      if Reaches(Part(p.measured, axis), minimum, 100) then []
      else [Gap(p.name, axis, BelowTier, Part(p.measured, axis), minimum, 100)]
  }

  function FloorGap(p: Package, axis: Axis, floors: Baseline, reason: Reason): seq<Gap>
    requires Floored(floors)
  {
    if p.name !in floors then []
    else
      var floor := Part(floors[p.name], axis);
      if Reaches(Part(p.measured, axis), floor.covered, floor.count) then []
      else [Gap(p.name, axis, reason, Part(p.measured, axis), floor.covered, floor.count)]
  }

  function Gaps(p: Package, axis: Axis, prior: Baseline, trusted: Baseline): seq<Gap>
    requires Floored(prior) && Floored(trusted)
  {
    TierGap(p, axis) + FloorGap(p, axis, prior, BelowBaseline) + FloorGap(p, axis, trusted, BelowTrusted)
  }

  /**
   * Every reported gap is real and reported exactly: covering fewer further items leaves the floor
   * missed, covering that many reaches it, and there are that many left to cover.
   */
  lemma GapLeast(p: Package, axis: Axis, prior: Baseline, trusted: Baseline, g: Gap, k: int)
    requires Valid(p.measured) && Floored(prior) && Floored(trusted) && g in Gaps(p, axis, prior, trusted)
    requires 0 <= k <= g.measured.count - g.measured.covered
    ensures g.measured == Part(p.measured, axis) && g.den > 0 && Measured(g.measured)
    ensures 1 <= Additional(g) <= g.measured.count - g.measured.covered
    ensures Reaches(Metric(g.measured.count, g.measured.covered + k), g.num, g.den) <==> Additional(g) <= k
  {
    GapShape(p, axis, prior, trusted, g);
    ReachesRatio(g.measured, g.num, g.den);
    ReachesRatio(Metric(g.measured.count, g.measured.covered + k), g.num, g.den);
    NeededLeast(g.measured, g.num, g.den, k);
  }

  lemma GapShape(p: Package, axis: Axis, prior: Baseline, trusted: Baseline, g: Gap)
    requires Valid(p.measured) && Floored(prior) && Floored(trusted) && g in Gaps(p, axis, prior, trusted)
    ensures g.measured == Part(p.measured, axis) && Measured(g.measured) && 0 <= g.num <= g.den && g.den > 0
    ensures !Reaches(g.measured, g.num, g.den)
  {
  }

  predicate MeetsOn(p: Package, axis: Axis, prior: Baseline, trusted: Baseline)
    requires Floored(prior) && Floored(trusted)
  {
    && (Target(p.tier, axis).Some? ==> Reaches(Part(p.measured, axis), Target(p.tier, axis).value, 100))
    && (p.name in prior ==>
        Reaches(Part(p.measured, axis), Part(prior[p.name], axis).covered, Part(prior[p.name], axis).count))
    && (p.name in trusted ==>
        Reaches(Part(p.measured, axis), Part(trusted[p.name], axis).covered, Part(trusted[p.name], axis).count))
  }

  /** Everything the policy demands of one package. */
  predicate Meets(p: Package, prior: Baseline, trusted: Baseline)
    requires Floored(prior) && Floored(trusted)
  {
    p.name in prior && MeetsOn(p, Lines, prior, trusted) && MeetsOn(p, Branches, prior, trusted)
  }

  /** The floors of each tier, in exact ratios. */
  ghost predicate ReachesTier(tier: Tier, r: Row)
    requires Valid(r)
  {
    match tier
    case Kernel => Ratio(r.lines) == 1.0 && Ratio(r.branches) == 1.0
    case Enforcement => Ratio(r.branches) >= 0.85
    case General => Ratio(r.branches) >= 0.7
  }

  ghost predicate ReachesFloor(r: Row, floors: Baseline, name: string)
    requires Valid(r) && Floored(floors)
  {
    name in floors ==>
      Ratio(r.lines) >= Ratio(floors[name].lines) && Ratio(r.branches) >= Ratio(floors[name].branches)
  }

  lemma RatioAtMostOne(m: Metric)
    requires Measured(m)
    ensures Ratio(m) <= 1.0
  {
    CrossMultiply(1, 1, m.covered, m.count);
  }

  lemma TierRatios(p: Package)
    requires Valid(p.measured)
    ensures ReachesTier(p.tier, p.measured) <==>
      && (Target(p.tier, Lines).Some? ==> Reaches(p.measured.lines, Target(p.tier, Lines).value, 100))
      && (Target(p.tier, Branches).Some? ==> Reaches(p.measured.branches, Target(p.tier, Branches).value, 100))
  {
    RatioAtMostOne(p.measured.lines);
    RatioAtMostOne(p.measured.branches);
    if Target(p.tier, Lines).Some? { ReachesRatio(p.measured.lines, Target(p.tier, Lines).value, 100); }
    if Target(p.tier, Branches).Some? { ReachesRatio(p.measured.branches, Target(p.tier, Branches).value, 100); }
  }

  lemma FloorRatios(p: Package, floors: Baseline)
    requires Valid(p.measured) && Floored(floors) && p.name in floors
    ensures ReachesFloor(p.measured, floors, p.name) <==>
      var floor := floors[p.name];
      && Reaches(p.measured.lines, floor.lines.covered, floor.lines.count)
      && Reaches(p.measured.branches, floor.branches.covered, floor.branches.count)
  {
    ReachesRatio(p.measured.lines, floors[p.name].lines.covered, floors[p.name].lines.count);
    ReachesRatio(p.measured.branches, floors[p.name].branches.covered, floors[p.name].branches.count);
  }

  /**
   * In ratios: a kernel is covered completely, enforcement code has 85 and general code 70 percent of its
   * branches, and neither axis is below the baseline or the trusted floor.
   */
  lemma MeetsRatios(p: Package, prior: Baseline, trusted: Baseline)
    requires Valid(p.measured) && Floored(prior) && Floored(trusted)
    ensures Meets(p, prior, trusted) <==>
      && p.name in prior && ReachesTier(p.tier, p.measured)
      && ReachesFloor(p.measured, prior, p.name) && ReachesFloor(p.measured, trusted, p.name)
  {
    TierRatios(p);
    if p.name in prior { FloorRatios(p, prior); }
    if p.name in trusted { FloorRatios(p, trusted); }
  }

  // ------------------------------------------------------------------ what a gap says

  ghost function Rank(reason: Reason): nat {
    match reason case BelowTier => 0 case BelowBaseline => 1 case BelowTrusted => 2
  }

  ghost predicate Percent(tier: Tier, axis: Axis, n: int) {
    (tier == Kernel && n == 100) || (tier == Enforcement && axis == Branches && n == 85)
    || (tier == General && axis == Branches && n == 70)
  }

  /** The floor a gap of this kind is measured against. */
  ghost predicate FloorOf(p: Package, axis: Axis, prior: Baseline, trusted: Baseline, g: Gap) {
    match g.reason
    case BelowTier => Percent(p.tier, axis, g.num) && g.den == 100
    case BelowBaseline =>
      && p.name in prior
      && g.num == Part(prior[p.name], axis).covered && g.den == Part(prior[p.name], axis).count
    case BelowTrusted =>
      && p.name in trusted
      && g.num == Part(trusted[p.name], axis).covered && g.den == Part(trusted[p.name], axis).count
  }

  lemma GapReal(m: Metric, num: int, den: int)
    requires Measured(m) && den > 0
    ensures !Reaches(m, num, den) <==> Ratio(m) < num as real / den as real
  {
    ReachesRatio(m, num, den);
  }

  /** A gap is reported exactly for each floor that is missed, tier first and trusted floor last. */
  lemma GapsExact(p: Package, axis: Axis, prior: Baseline, trusted: Baseline, g: Gap)
    requires Valid(p.measured) && Floored(prior) && Floored(trusted)
    ensures g in Gaps(p, axis, prior, trusted) <==>
      && g.name == p.name && g.axis == axis && g.measured == Part(p.measured, axis)
      && FloorOf(p, axis, prior, trusted, g)
      && g.den > 0 && Ratio(g.measured) < g.num as real / g.den as real
    ensures var gs := Gaps(p, axis, prior, trusted);
      forall i, j :: 0 <= i < j < |gs| ==> Rank(gs[i].reason) < Rank(gs[j].reason)
  {
    var m := Part(p.measured, axis);
    GapsForm(p, axis, prior, trusted, g);
    if FloorOf(p, axis, prior, trusted, g) { GapReal(m, g.num, g.den); }
  }

  lemma GapsForm(p: Package, axis: Axis, prior: Baseline, trusted: Baseline, g: Gap)
    requires Floored(prior) && Floored(trusted)
    ensures FloorOf(p, axis, prior, trusted, g) ==> g.den > 0
    ensures g in Gaps(p, axis, prior, trusted) <==>
      && g.name == p.name && g.axis == axis && g.measured == Part(p.measured, axis)
      && FloorOf(p, axis, prior, trusted, g) && !Reaches(g.measured, g.num, g.den)
  {
  }

  lemma NoGapsMeets(p: Package, prior: Baseline, trusted: Baseline)
    requires Floored(prior) && Floored(trusted)
    ensures p.name in prior && Gaps(p, Lines, prior, trusted) == [] && Gaps(p, Branches, prior, trusted) == [] <==>
      Meets(p, prior, trusted)
  {
  }

  predicate FirstValid(packages: seq<Package>, n: nat)
    requires n <= |packages|
  {
    forall i :: 0 <= i < n ==> Valid(packages[i].measured)
  }

  /** Every gap of the first `n` packages, in order. */
  function AllGaps(packages: seq<Package>, n: nat, prior: Baseline, trusted: Baseline): seq<Gap>
    requires n <= |packages| && Floored(prior) && Floored(trusted)
  {
    if n == 0 then []
    else
      var p := packages[n - 1];
      AllGaps(packages, n - 1, prior, trusted) + (Gaps(p, Lines, prior, trusted) + Gaps(p, Branches, prior, trusted))
  }

  predicate FirstMeet(packages: seq<Package>, n: nat, prior: Baseline, trusted: Baseline)
    requires n <= |packages| && Floored(prior) && Floored(trusted)
  {
    n == 0 || (FirstMeet(packages, n - 1, prior, trusted) && Meets(packages[n - 1], prior, trusted))
  }

  lemma {:induction false} FirstMeetEach(packages: seq<Package>, n: nat, prior: Baseline, trusted: Baseline)
    requires n <= |packages| && Floored(prior) && Floored(trusted)
    ensures FirstMeet(packages, n, prior, trusted) <==> forall i :: 0 <= i < n ==> Meets(packages[i], prior, trusted)
  {
    if n > 0 { FirstMeetEach(packages, n - 1, prior, trusted); }
  }

  method EvaluateNext(packages: seq<Package>, i: nat, prior: Baseline, trusted: Baseline, passed: bool, gaps: seq<Gap>)
    returns (stillPassed: bool, allGaps: seq<Gap>)
    requires Floored(prior) && Floored(trusted) && i < |packages|
    requires passed <==> FirstMeet(packages, i, prior, trusted)
    requires gaps == AllGaps(packages, i, prior, trusted)
    ensures stillPassed <==> FirstMeet(packages, i + 1, prior, trusted)
    ensures allGaps == AllGaps(packages, i + 1, prior, trusted)
  {
    var p := packages[i];
    var found := Gaps(p, Lines, prior, trusted) + Gaps(p, Branches, prior, trusted);
    NoGapsMeets(p, prior, trusted);
    stillPassed := passed && found == [] && p.name in prior;
    allGaps := gaps + found;
  }

  method Unmeasured(r: Row) returns (bad: bool)
    ensures bad <==> !Valid(r)
  {
    bad := r.lines.count <= 0 || r.lines.covered < 0 || r.lines.covered > r.lines.count;
    bad := bad || r.branches.count <= 0 || r.branches.covered < 0 || r.branches.covered > r.branches.count;
  }

  /** One pass over the packages, in order; it stops at an unmeasured package, which it names. */
  method EvaluateRows(packages: seq<Package>, prior: Baseline, trusted: Baseline)
    returns (stopped: Option<nat>, passed: bool, gaps: seq<Gap>)
    requires Floored(prior) && Floored(trusted)
    ensures stopped.Some? ==>
      stopped.value < |packages| && FirstValid(packages, stopped.value) && !Valid(packages[stopped.value].measured)
    ensures stopped.None? ==> FirstValid(packages, |packages|)
    ensures stopped.None? ==> (passed <==> FirstMeet(packages, |packages|, prior, trusted))
    ensures stopped.None? ==> gaps == AllGaps(packages, |packages|, prior, trusted)
  {
    passed, gaps := true, [];
    for i := 0 to |packages|
      invariant FirstValid(packages, i)
      invariant passed <==> FirstMeet(packages, i, prior, trusted)
      invariant gaps == AllGaps(packages, i, prior, trusted)
    {
      var bad := Unmeasured(packages[i].measured);
      if bad { return Some(i), false, gaps; }
      passed, gaps := EvaluateNext(packages, i, prior, trusted, passed, gaps);
    }
    stopped := None;
  }

  // ------------------------------------------------------------------ the verdict

  /** What the trusted revision says: whether every check of it succeeded, and its floors for this target. */
  datatype History = History(passed: bool, packages: Baseline)

  datatype Verdict = Passed | Failed | Invalid

  function Names(packages: seq<Package>): set<string> {
    set i | 0 <= i < |packages| :: packages[i].name
  }

  /** A measurement the policy can be asked about at all. */
  ghost predicate WellPosed(packages: seq<Package>) {
    && packages != []
    && (forall i, j :: 0 <= i < j < |packages| ==> packages[i].name != packages[j].name)
    && (exists i :: 0 <= i < |packages| && packages[i].tier == Kernel)
  }

  /** The rows of a baseline that can be compared with; a baseline may be missing, stale or malformed. */
  ghost function Available(baseline: Option<Baseline>, names: set<string>): (rows: Baseline)
    ensures Floored(rows)
  {
    match baseline
    case None => map[]
    case Some(b) => map name | name in b && name in names && Valid(b[name]) :: b[name]
  }

  ghost predicate Usable(baseline: Option<Baseline>, names: set<string>) {
    baseline.Some? && baseline.value.Keys == names && Floored(baseline.value)
  }

  predicate TrustworthyHistory(history: Option<History>) {
    history.Some? ==> Floored(history.value.packages)
  }

  function Trusted(history: Option<History>): Baseline {
    match history case None => map[] case Some(h) => h.packages
  }

  ghost predicate HistoryPassed(history: Option<History>) {
    history.Some? ==> history.value.passed
  }

  /** What a passing verdict means. */
  ghost predicate Passes(packages: seq<Package>, baseline: Option<Baseline>, history: Option<History>)
    requires TrustworthyHistory(history)
  {
    && WellPosed(packages) && FirstValid(packages, |packages|)
    && Usable(baseline, Names(packages)) && HistoryPassed(history)
    && forall i :: 0 <= i < |packages| ==> Meets(packages[i], baseline.value, Trusted(history))
  }

  lemma AvailableUsable(baseline: Option<Baseline>, names: set<string>)
    requires Usable(baseline, names)
    ensures Available(baseline, names) == baseline.value
  {
  }

  /**
   * The whole evaluation; `None` is a policy error. A missing, stale or malformed baseline and a failed
   * history are invalid, yet every gap against the rows that are left is reported.
   */
  method Evaluate(packages: seq<Package>, baseline: Option<Baseline>, history: Option<History>)
    returns (verdict: Option<Verdict>, gaps: seq<Gap>)
    requires TrustworthyHistory(history)
    ensures verdict == Some(Passed) <==> Passes(packages, baseline, history)
    ensures verdict.None? <==> !WellPosed(packages) || !FirstValid(packages, |packages|)
    ensures verdict.Some? ==>
      (verdict == Some(Invalid) <==> !Usable(baseline, Names(packages)) || !HistoryPassed(history))
    ensures verdict.Some? ==>
      gaps == AllGaps(packages, |packages|, Available(baseline, Names(packages)), Trusted(history))
  {
    gaps := [];
    var names := Listed(packages);
    if names.None? { return None, gaps; }
    var trusted := if history.Some? then history.value.packages else map[];
    var prior: Baseline := map[];
    var invalid := baseline.None? || (history.Some? && !history.value.passed);
    if baseline.Some? {
      var b := baseline.value;
      prior := map name | name in b && name in names.value && Valid(b[name]) :: b[name];
      if prior != b || prior.Keys != names.value { invalid := true; }
    }
    UsableWhen(baseline, names.value, prior);
    var stopped, passed, found := EvaluateRows(packages, prior, trusted);
    if stopped.Some? { return None, gaps; }
    gaps := found;
    if invalid { return Some(Invalid), gaps; }
    FirstMeetEach(packages, |packages|, prior, trusted);
    return Some(if passed then Passed else Failed), gaps;
  }

  lemma UsableWhen(baseline: Option<Baseline>, names: set<string>, prior: Baseline)
    requires baseline.Some? ==>
      prior == map name | name in baseline.value && name in names && Valid(baseline.value[name]) :: baseline.value[name]
    requires baseline.None? ==> prior == map[]
    ensures prior == Available(baseline, names)
    ensures Usable(baseline, names) <==> baseline.Some? && prior == baseline.value && prior.Keys == names
  {
  }

  /** The package names, if there are any, none is repeated and one of them is a kernel. */
  method Listed(packages: seq<Package>) returns (names: Option<set<string>>)
    ensures names.Some? <==> WellPosed(packages)
    ensures names.Some? ==> names.value == Names(packages)
  {
    var seen, kernel := {}, false;
    for i := 0 to |packages|
      invariant seen == set k | 0 <= k < i :: packages[k].name
      invariant forall j, k :: 0 <= j < k < i ==> packages[j].name != packages[k].name
      invariant kernel <==> exists k :: 0 <= k < i && packages[k].tier == Kernel
    {
      if packages[i].name in seen { return None; }
      seen := seen + {packages[i].name};
      kernel := kernel || packages[i].tier == Kernel;
    }
    return if kernel then Some(seen) else None;
  }

  // ------------------------------------------------------------------ the ratchet

  /** No package is dropped and no ratio falls. */
  ghost predicate Holds(old_: Baseline, new_: Baseline) {
    && Floored(old_) && Floored(new_)
    && forall name :: name in old_ ==>
       name in new_ && forall axis :: Ratio(Part(new_[name], axis)) >= Ratio(Part(old_[name], axis))
  }

  predicate Complete(r: Row) {
    r.lines.covered == r.lines.count && r.branches.covered == r.branches.count
  }

  predicate NoLower(old_: Baseline, new_: Baseline, name: string)
    requires Floored(old_) && Floored(new_) && name in old_ && name in new_
  {
    Ratio(new_[name].lines) >= Ratio(old_[name].lines) && Ratio(new_[name].branches) >= Ratio(old_[name].branches)
  }

  /**
   * A refresh of a baseline with rows, from new evidence. New packages must be completely covered
   * kernels, and then existing floors stay; otherwise every floor is replaced by a measurement no lower.
   */
  function Refresh(previous: Baseline, measured: Baseline, kernel: set<string>): Option<Baseline> {
    if previous == map[] || !Floored(measured) || !Floored(previous) || !(previous.Keys <= measured.Keys) then None
    else
      var added := measured.Keys - previous.Keys;
      if added != {} then
        if forall name :: name in added ==> name in kernel && Complete(measured[name]) then
          Some(map name | name in measured :: if name in previous then previous[name] else measured[name])
        else None
      else if forall name :: name in previous ==> NoLower(previous, measured, name) then Some(measured)
      else None
  }

  /** The history check made on a proposed baseline against the trusted one. */
  predicate Admissible(old_: Baseline, candidate: Baseline) {
    && Floored(old_) && Floored(candidate) && old_.Keys <= candidate.Keys
    && forall name :: name in old_ ==> NoLower(old_, candidate, name)
  }

  /**
   * A refresh is accepted exactly when every row is measured, no package is dropped, and either every
   * ratio is at least what it was or the new packages are completely covered kernels, whose rows are
   * then all that changes.
   */
  lemma RefreshExact(previous: Baseline, measured: Baseline, kernel: set<string>)
    ensures Refresh(previous, measured, kernel).Some? <==>
      && previous != map[] && Floored(previous) && Floored(measured) && previous.Keys <= measured.Keys
      && (if previous.Keys == measured.Keys then Holds(previous, measured)
          else forall name :: name in measured && name !in previous ==>
            name in kernel && Ratio(measured[name].lines) == 1.0 && Ratio(measured[name].branches) == 1.0)
    ensures Refresh(previous, measured, kernel).Some? ==>
      var next := Refresh(previous, measured, kernel).value;
      && next.Keys == measured.Keys
      && forall name :: name in next ==>
           next[name] == if name in previous && previous.Keys != measured.Keys then previous[name] else measured[name]
  {
    if Floored(previous) && Floored(measured) && previous.Keys <= measured.Keys {
      NoneAdded(previous.Keys, measured.Keys);
      AdmissibleHolds(previous, measured);
      forall name | name in measured
        ensures Complete(measured[name]) <==>
          Ratio(measured[name].lines) == 1.0 && Ratio(measured[name].branches) == 1.0
      {
        WholeRatio(measured[name].lines);
        WholeRatio(measured[name].branches);
      }
      assert forall name :: name in measured.Keys - previous.Keys <==> name in measured && name !in previous;
    }
  }

  lemma NoneAdded(a: set<string>, b: set<string>)
    requires a <= b
    ensures a == b <==> b - a == {}
  {
    assert b == (b - a) + a;
  }

  lemma WholeRatio(m: Metric)
    requires Measured(m)
    ensures m.covered == m.count <==> Ratio(m) == 1.0
  {
    RatioAtMostOne(m);
    if Ratio(m) == 1.0 { FullyCovered(m); }
  }

  /** The two gates agree with one meaning, and every refresh passes the history check. */
  lemma RefreshHolds(previous: Baseline, measured: Baseline, kernel: set<string>)
    requires Refresh(previous, measured, kernel).Some?
    ensures Holds(previous, Refresh(previous, measured, kernel).value)
    ensures Admissible(previous, Refresh(previous, measured, kernel).value)
  {
    var next := Refresh(previous, measured, kernel).value;
    forall name | name in previous ensures name in next && NoLower(previous, next, name) {}
    AdmissibleHolds(previous, next);
  }

  lemma AdmissibleHolds(old_: Baseline, candidate: Baseline)
    ensures Admissible(old_, candidate) <==> Holds(old_, candidate)
  {
    if Admissible(old_, candidate) {
      forall name, axis | name in old_
        ensures name in candidate && Ratio(Part(candidate[name], axis)) >= Ratio(Part(old_[name], axis))
      {
        assert NoLower(old_, candidate, name);
        if axis == Lines {} else {}
      }
    }
    if Holds(old_, candidate) {
      forall name | name in old_ ensures name in candidate && NoLower(old_, candidate, name) {
        assert Part(candidate[name], Lines) == candidate[name].lines
          && Part(candidate[name], Branches) == candidate[name].branches;
      }
    }
  }

  ghost predicate Chain(baselines: seq<Baseline>) {
    && |baselines| > 0 && Floored(baselines[0])
    && forall i :: 0 < i < |baselines| ==> Admissible(baselines[i - 1], baselines[i])
  }

  lemma HoldsTransitive(a: Baseline, b: Baseline, c: Baseline)
    requires Holds(a, b) && Holds(b, c)
    ensures Holds(a, c)
  {
  }

  /** Along any chain of accepted baselines, however long, no package disappears and no floor falls. */
  lemma {:induction false} RatchetHolds(baselines: seq<Baseline>, i: nat, j: nat)
    requires Chain(baselines) && i <= j < |baselines|
    ensures Holds(baselines[i], baselines[j])
    decreases j - i
  {
    if i < j {
      RatchetHolds(baselines, i, j - 1);
      assert Admissible(baselines[j - 1], baselines[j]);
      AdmissibleHolds(baselines[j - 1], baselines[j]);
      HoldsTransitive(baselines[i], baselines[j - 1], baselines[j]);
    } else if i > 0 {
      assert Admissible(baselines[i - 1], baselines[i]);
    }
  }

  lemma AddedComplete(previous: Baseline, measured: Baseline, kernel: set<string>, name: string)
    requires Refresh(previous, measured, kernel).Some?
    requires name in Refresh(previous, measured, kernel).value && name !in previous
    ensures var row := Refresh(previous, measured, kernel).value[name];
      name in kernel && Complete(row) && Valid(row)
  {
    assert name in measured.Keys - previous.Keys;
  }

  /** A package that enters by a refresh is completely covered then and ever after. */
  lemma NewPackagesStayComplete(baselines: seq<Baseline>, i: nat, j: nat, name: string, measured: Baseline,
                                kernel: set<string>)
    requires Chain(baselines) && 0 < i <= j < |baselines|
    requires Refresh(baselines[i - 1], measured, kernel) == Some(baselines[i])
    requires name in baselines[i] && name !in baselines[i - 1]
    ensures name in baselines[j] && Valid(baselines[j][name]) && Complete(baselines[j][name])
  {
    RatchetHolds(baselines, i, j);
    AddedComplete(baselines[i - 1], measured, kernel, name);
    StaysComplete(baselines[i], baselines[j], name);
  }

  lemma StaysComplete(old_: Baseline, new_: Baseline, name: string)
    requires Holds(old_, new_) && name in old_ && Complete(old_[name])
    ensures name in new_ && Complete(new_[name])
  {
    assert Ratio(Part(new_[name], Lines)) >= Ratio(Part(old_[name], Lines)) == 1.0;
    assert Ratio(Part(new_[name], Branches)) >= Ratio(Part(old_[name], Branches)) == 1.0;
    FullyCovered(new_[name].lines);
    FullyCovered(new_[name].branches);
  }

  lemma FullyCovered(m: Metric)
    requires Measured(m) && Ratio(m) >= 1.0
    ensures m.covered == m.count
  {
    CrossMultiply(m.covered, m.count, 1, 1);
  }

  // ------------------------------------------------------------------ evaluating what was refreshed

  /** The rows a measurement would record. */
  function MeasuredBy(packages: seq<Package>): (rows: Baseline)
    requires WellPosed(packages)
    ensures rows.Keys == Names(packages)
    ensures forall i :: 0 <= i < |packages| ==>
      packages[i].name in rows && rows[packages[i].name] == packages[i].measured
  {
    Recorded(packages, |packages|)
  }

  function Recorded(packages: seq<Package>, n: nat): (rows: Baseline)
    requires n <= |packages| && forall i, j :: 0 <= i < j < |packages| ==> packages[i].name != packages[j].name
    ensures rows.Keys == set i | 0 <= i < n :: packages[i].name
    ensures forall i :: 0 <= i < n ==> packages[i].name in rows && rows[packages[i].name] == packages[i].measured
  {
    if n == 0 then map[] else Recorded(packages, n - 1)[packages[n - 1].name := packages[n - 1].measured]
  }

  /** A floor equal to the measurement, or to a lower earlier floor, asks nothing new. */
  lemma FloorSame(m: Metric, floor: Metric)
    requires Measured(m) && Measured(floor)
    ensures Reaches(m, m.covered, m.count)
    ensures Ratio(m) >= Ratio(floor) <==> Reaches(m, floor.covered, floor.count)
  {
    ReachesRatio(m, floor.covered, floor.count);
  }

  lemma RefreshedRow(packages: seq<Package>, previous: Baseline, kernel: set<string>, i: nat, axis: Axis)
    requires WellPosed(packages) && FirstValid(packages, |packages|) && i < |packages|
    requires Refresh(previous, MeasuredBy(packages), kernel).Some?
    ensures var next := Refresh(previous, MeasuredBy(packages), kernel).value; var p := packages[i];
      && p.name in next && Valid(next[p.name])
      && (Reaches(Part(p.measured, axis), Part(next[p.name], axis).covered, Part(next[p.name], axis).count) <==>
          (p.name in previous ==>
             Reaches(Part(p.measured, axis), Part(previous[p.name], axis).covered, Part(previous[p.name], axis).count)))
  {
    var measured, p := MeasuredBy(packages), packages[i];
    FloorSame(Part(p.measured, axis), Part(p.measured, axis));
    if p.name in previous {
      FloorSame(Part(p.measured, axis), Part(previous[p.name], axis));
      if measured.Keys - previous.Keys == {} { assert NoLower(previous, measured, p.name); }
    }
  }

  lemma RefreshedMeets(packages: seq<Package>, previous: Baseline, kernel: set<string>, next: Baseline,
                       trusted: Baseline, i: nat)
    requires WellPosed(packages) && FirstValid(packages, |packages|) && i < |packages|
    requires Refresh(previous, MeasuredBy(packages), kernel) == Some(next) && Floored(next) && Floored(trusted)
    ensures Floored(previous)
    ensures Meets(packages[i], next, trusted) <==>
      MeetsOn(packages[i], Lines, previous, trusted) && MeetsOn(packages[i], Branches, previous, trusted)
  {
    RefreshedRow(packages, previous, kernel, i, Lines);
    RefreshedRow(packages, previous, kernel, i, Branches);
  }

  /**
   * A refresh never changes what is demanded: measured against the baseline it just produced, a run
   * passes exactly when every package meets its tier, the trusted floors and the floors it had before.
   */
  lemma RefreshedPasses(packages: seq<Package>, previous: Baseline, kernel: set<string>, history: Option<History>)
    requires WellPosed(packages) && FirstValid(packages, |packages|) && TrustworthyHistory(history)
    requires Refresh(previous, MeasuredBy(packages), kernel).Some?
    ensures Floored(previous)
    ensures Passes(packages, Refresh(previous, MeasuredBy(packages), kernel), history) <==>
      HistoryPassed(history) && forall i :: 0 <= i < |packages| ==>
        MeetsOn(packages[i], Lines, previous, Trusted(history))
          && MeetsOn(packages[i], Branches, previous, Trusted(history))
  {
    var next := Refresh(previous, MeasuredBy(packages), kernel).value;
    RefreshHolds(previous, MeasuredBy(packages), kernel);
    assert next.Keys == Names(packages);
    forall i | 0 <= i < |packages|
      ensures Meets(packages[i], next, Trusted(history)) <==>
        MeetsOn(packages[i], Lines, previous, Trusted(history))
          && MeetsOn(packages[i], Branches, previous, Trusted(history))
    {
      RefreshedMeets(packages, previous, kernel, next, Trusted(history), i);
    }
  }

  /** A passing run can always be recorded as it was measured, and passes again against its own record. */
  lemma PassingRefreshes(packages: seq<Package>, previous: Baseline, kernel: set<string>, history: Option<History>)
    requires TrustworthyHistory(history) && Passes(packages, Some(previous), history)
    ensures Refresh(previous, MeasuredBy(packages), kernel) == Some(MeasuredBy(packages))
    ensures Passes(packages, Some(MeasuredBy(packages)), history)
  {
    var measured := MeasuredBy(packages);
    forall name | name in previous ensures Valid(measured[name]) && NoLower(previous, measured, name) {
      assert name in Names(packages);
      var i :| 0 <= i < |packages| && packages[i].name == name;
      assert Meets(packages[i], previous, Trusted(history));
      FloorSame(packages[i].measured.lines, previous[name].lines);
      FloorSame(packages[i].measured.branches, previous[name].branches);
    }
    RefreshedPasses(packages, previous, kernel, history);
  }
}
