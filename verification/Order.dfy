/** The byte order of identifiers, in which the ledger lists its rows, and stable sorting by a key. */
module Order {

  /** Strict lexicographic order; on UTF-8 text it is the byte order of the stored strings. */
  predicate Less(a: string, b: string) {
    if |b| == 0 then false
    else if |a| == 0 then true
    else a[0] < b[0] || (a[0] == b[0] && Less(a[1..], b[1..]))
  }

  lemma {:induction false} LessIrreflexive(a: string)
    ensures !Less(a, a)
    decreases |a|
  {
    if |a| > 0 {
      LessIrreflexive(a[1..]);
    }
  }

  lemma {:induction false} LessTransitive(a: string, b: string, c: string)
    requires Less(a, b) && Less(b, c)
    ensures Less(a, c)
    decreases |a|
  {
    if |a| > 0 && a[0] == b[0] && b[0] == c[0] {
      LessTransitive(a[1..], b[1..], c[1..]);
    }
  }

  lemma {:induction false} LessTotal(a: string, b: string)
    ensures a == b || Less(a, b) || Less(b, a)
    decreases |a|
  {
    if |a| > 0 && |b| > 0 && a[0] == b[0] {
      LessTotal(a[1..], b[1..]);
      assert a == [a[0]] + a[1..] && b == [b[0]] + b[1..];
    }
  }

  /** One string precedes another when it is a proper prefix, or smaller at the first place they differ. */
  ghost predicate Precedes(a: string, b: string) {
    exists k :: 0 <= k <= |a| && k < |b| && a[..k] == b[..k] && (k == |a| || a[k] < b[k])
  }

  lemma {:induction false} LessExact(a: string, b: string)
    ensures Less(a, b) <==> Precedes(a, b)
    decreases |a|
  {
    if |a| > 0 && |b| > 0 && a[0] == b[0] {
      LessExact(a[1..], b[1..]);
      if Precedes(a[1..], b[1..]) { PrecedesOn(a, b); }
      if Precedes(a, b) { PrecedesRest(a, b); }
    } else if Less(a, b) {
      assert a[..0] == b[..0];
    }
  }

  lemma PrecedesOn(a: string, b: string)
    requires |a| > 0 && |b| > 0 && a[0] == b[0] && Precedes(a[1..], b[1..])
    ensures Precedes(a, b)
  {
    var p, q := a[1..], b[1..];
    var k :| 0 <= k <= |p| && k < |q| && p[..k] == q[..k] && (k == |p| || p[k] < q[k]);
    assert a[..k + 1] == [a[0]] + p[..k] && b[..k + 1] == [b[0]] + q[..k];
  }

  lemma PrecedesRest(a: string, b: string)
    requires |a| > 0 && |b| > 0 && a[0] == b[0] && Precedes(a, b)
    ensures Precedes(a[1..], b[1..])
  {
    var k :| 0 <= k <= |a| && k < |b| && a[..k] == b[..k] && (k == |a| || a[k] < b[k]);
    assert k > 0;
    assert a[1..][..k - 1] == a[..k][1..] && b[1..][..k - 1] == b[..k][1..];
  }

  /** Neighbouring elements are in strict order, as a `windows(2)` check sees them. */
  predicate Rising(xs: seq<string>) {
    forall i :: 0 < i < |xs| ==> Less(xs[i - 1], xs[i])
  }

  /** A rising listing never repeats an element, however far apart. */
  lemma {:induction false} RisingFar(xs: seq<string>, i: nat, j: nat)
    requires Rising(xs) && i < j < |xs|
    ensures Less(xs[i], xs[j]) && xs[i] != xs[j]
    decreases j - i
  {
    if i + 1 < j {
      RisingFar(xs, i, j - 1);
      LessTransitive(xs[i], xs[j - 1], xs[j]);
    }
    LessIrreflexive(xs[i]);
  }

  predicate IsLeast(x: string, s: set<string>) {
    x in s && forall y :: y in s ==> y == x || Less(x, y)
  }

  lemma {:induction false} LeastExists(s: set<string>)
    requires s != {}
    ensures exists x :: IsLeast(x, s)
    decreases |s|
  {
    var y :| y in s;
    var rest := s - {y};
    if rest == {} {
      assert s == {y};
      assert IsLeast(y, s);
    } else {
      LeastExists(rest);
      var x :| IsLeast(x, rest);
      LessTotal(x, y);
      if Less(x, y) {
        assert IsLeast(x, s);
      } else {
        forall z | z in s ensures z == y || Less(y, z) {
          if z in rest && z != x {
            LessTransitive(y, x, z);
          }
        }
        assert IsLeast(y, s);
      }
    }
  }

  /** The elements of a set in rising order: `SELECT id ... ORDER BY id`. */
  ghost function Listing(s: set<string>): (xs: seq<string>)
    decreases |s|
    ensures Rising(xs) && (forall x :: x in xs <==> x in s)
  {
    if s == {} then []
    else
      LeastExists(s);
      var x :| IsLeast(x, s);
      [x] + Listing(s - {x})
  }

  lemma HasMember(xs: seq<string>)
    requires |xs| > 0
    ensures exists x :: x in xs
  {
    assert xs[0] in xs;
  }

  /** Two rising listings of the same elements are the same listing. */
  lemma {:induction false} RisingUnique(xs: seq<string>, ys: seq<string>)
    requires Rising(xs) && Rising(ys)
    requires forall x :: x in xs <==> x in ys
    ensures xs == ys
    decreases |xs|
  {
    if |xs| == 0 {
      if |ys| > 0 {
        HasMember(ys);
        assert false;
      }
    } else {
      assert xs[0] in ys;
      assert ys[0] in xs;
      var i :| 0 <= i < |ys| && ys[i] == xs[0];
      var j :| 0 <= j < |xs| && xs[j] == ys[0];
      if i > 0 && j > 0 {
        RisingFar(ys, 0, i);
        RisingFar(xs, 0, j);
        LessTransitive(xs[0], ys[0], xs[0]);
        LessIrreflexive(xs[0]);
      }
      assert xs[0] == ys[0];
      forall x ensures x in xs[1..] <==> x in ys[1..] {
        TailMembers(xs, x);
        TailMembers(ys, x);
      }
      RisingUnique(xs[1..], ys[1..]);
      assert xs == [xs[0]] + xs[1..] && ys == [ys[0]] + ys[1..];
    }
  }

  lemma TailMembers(xs: seq<string>, x: string)
    requires Rising(xs) && |xs| > 0
    ensures x in xs[1..] <==> x in xs && x != xs[0]
  {
    if x in xs[1..] {
      var k :| 0 <= k < |xs[1..]| && xs[1..][k] == x;
      RisingFar(xs, 0, k + 1);
    }
    if x in xs && x != xs[0] {
      var k :| 0 <= k < |xs| && xs[k] == x;
      assert x == xs[1..][k - 1];
    }
  }

  /** Keys of neighbouring rows are in strict order. */
  predicate RisingBy<T>(key: T -> string, xs: seq<T>) {
    forall i {:trigger xs[i]} :: 0 < i < |xs| ==> Less(key(xs[i - 1]), key(xs[i]))
  }

  function InsertBy<T>(key: T -> string, xs: seq<T>, x: T): seq<T> {
    if xs == [] || !Less(key(x), key(xs[|xs| - 1])) then xs + [x]
    else InsertBy(key, xs[..|xs| - 1], x) + [xs[|xs| - 1]]
  }

  /** Stable sort by key. */
  function SortBy<T>(key: T -> string, xs: seq<T>): seq<T> {
    if xs == [] then []
    else InsertBy(key, SortBy(key, xs[..|xs| - 1]), xs[|xs| - 1])
  }

  /** Sorting rows that already rise changes nothing. */
  lemma {:induction false} SortRising<T>(key: T -> string, xs: seq<T>)
    requires RisingBy(key, xs)
    ensures SortBy(key, xs) == xs
    decreases |xs|
  {
    if xs != [] {
      var n := |xs| - 1;
      assert RisingBy(key, xs[..n]) by {
        forall i | 0 < i < |xs[..n]| ensures Less(key(xs[..n][i - 1]), key(xs[..n][i])) {
          assert xs[i] == xs[..n][i];
        }
      }
      SortRising(key, xs[..n]);
      if n > 0 && Less(key(xs[n]), key(xs[n - 1])) {
        LessTransitive(key(xs[n - 1]), key(xs[n]), key(xs[n - 1]));
        LessIrreflexive(key(xs[n - 1]));
        assert false;
      }
      assert xs == xs[..n] + [xs[n]];
    }
  }

  lemma {:induction false} InsertPermutes<T>(key: T -> string, xs: seq<T>, x: T)
    ensures multiset(InsertBy(key, xs, x)) == multiset(xs) + multiset{x}
    decreases |xs|
  {
    if xs != [] && Less(key(x), key(xs[|xs| - 1])) {
      InsertPermutes(key, xs[..|xs| - 1], x);
      assert xs == xs[..|xs| - 1] + [xs[|xs| - 1]];
    }
  }

  /** Sorting keeps every row, as often as it occurred. */
  lemma {:induction false} SortPermutes<T>(key: T -> string, xs: seq<T>)
    ensures multiset(SortBy(key, xs)) == multiset(xs)
    decreases |xs|
  {
    if xs != [] {
      var n := |xs| - 1;
      SortPermutes(key, xs[..n]);
      InsertPermutes(key, SortBy(key, xs[..n]), xs[n]);
      assert xs == xs[..n] + [xs[n]];
    }
  }

  lemma SortMembers<T>(key: T -> string, xs: seq<T>, x: T)
    ensures x in SortBy(key, xs) <==> x in xs
  {
    SortPermutes(key, xs);
    assert x in multiset(SortBy(key, xs)) <==> x in SortBy(key, xs);
    assert x in multiset(xs) <==> x in xs;
  }

  ghost predicate DistinctBy<T>(key: T -> string, xs: seq<T>) {
    forall i, j :: 0 <= i < j < |xs| ==> key(xs[i]) != key(xs[j])
  }

  /** Neighbours never fall. */
  ghost predicate Calm<T>(key: T -> string, xs: seq<T>) {
    forall i {:trigger xs[i]} :: 0 < i < |xs| ==> !Less(key(xs[i]), key(xs[i - 1]))
  }

  lemma {:induction false} InsertLast<T>(key: T -> string, xs: seq<T>, x: T)
    ensures |InsertBy(key, xs, x)| == |xs| + 1
    ensures var last := InsertBy(key, xs, x)[|xs|]; last == x || (xs != [] && last == xs[|xs| - 1])
    decreases |xs|
  {
    if xs != [] && Less(key(x), key(xs[|xs| - 1])) { InsertLast(key, xs[..|xs| - 1], x); }
  }

  lemma {:induction false} InsertCalm<T>(key: T -> string, xs: seq<T>, x: T)
    requires Calm(key, xs)
    ensures Calm(key, InsertBy(key, xs, x))
    decreases |xs|
  {
    if xs != [] && Less(key(x), key(xs[|xs| - 1])) {
      var n := |xs| - 1;
      var front := InsertBy(key, xs[..n], x);
      assert Calm(key, xs[..n]) by {
        forall i | 0 < i < n ensures !Less(key(xs[..n][i]), key(xs[..n][i - 1])) { assert xs[i] == xs[..n][i]; }
      }
      InsertCalm(key, xs[..n], x);
      InsertLast(key, xs[..n], x);
      if Less(key(xs[n]), key(x)) {
        LessTransitive(key(xs[n]), key(x), key(xs[n]));
        LessIrreflexive(key(xs[n]));
      }
      if n > 0 { assert !Less(key(xs[n]), key(xs[n - 1])); }
    }
  }

  lemma {:induction false} SortCalm<T>(key: T -> string, xs: seq<T>)
    ensures Calm(key, SortBy(key, xs))
    decreases |xs|
  {
    if xs != [] {
      SortCalm(key, xs[..|xs| - 1]);
      InsertCalm(key, SortBy(key, xs[..|xs| - 1]), xs[|xs| - 1]);
    }
  }

  ghost predicate Unused<T>(key: T -> string, xs: seq<T>, k: string) {
    forall i :: 0 <= i < |xs| ==> key(xs[i]) != k
  }

  lemma DistinctAppend<T>(key: T -> string, xs: seq<T>, x: T)
    ensures DistinctBy(key, xs + [x]) <==> DistinctBy(key, xs) && Unused(key, xs, key(x))
    ensures forall k :: Unused(key, xs + [x], k) <==> Unused(key, xs, k) && key(x) != k
  {
    var all := xs + [x];
    assert all[|xs|] == x;
    if DistinctBy(key, all) {
      forall i | 0 <= i < |xs| ensures key(xs[i]) != key(x) { assert all[i] == xs[i]; }
      forall i, j | 0 <= i < j < |xs| ensures key(xs[i]) != key(xs[j]) { assert all[i] == xs[i] && all[j] == xs[j]; }
    }
    forall k | Unused(key, all, k) ensures Unused(key, xs, k) && key(x) != k {
      forall i | 0 <= i < |xs| ensures key(xs[i]) != k { assert all[i] == xs[i]; }
    }
  }

  lemma {:induction false} InsertDistinct<T>(key: T -> string, xs: seq<T>, x: T)
    ensures DistinctBy(key, InsertBy(key, xs, x)) <==> DistinctBy(key, xs) && Unused(key, xs, key(x))
    ensures forall k :: Unused(key, InsertBy(key, xs, x), k) <==> Unused(key, xs, k) && key(x) != k
    decreases |xs|
  {
    if xs == [] || !Less(key(x), key(xs[|xs| - 1])) {
      DistinctAppend(key, xs, x);
    } else {
      var n := |xs| - 1;
      InsertDistinct(key, xs[..n], x);
      DistinctAppend(key, InsertBy(key, xs[..n], x), xs[n]);
      DistinctAppend(key, xs[..n], xs[n]);
      assert xs == xs[..n] + [xs[n]];
    }
  }

  lemma {:induction false} SortDistinct<T>(key: T -> string, xs: seq<T>)
    ensures DistinctBy(key, SortBy(key, xs)) <==> DistinctBy(key, xs)
    ensures forall k :: Unused(key, SortBy(key, xs), k) <==> Unused(key, xs, k)
    decreases |xs|
  {
    if xs != [] {
      var n := |xs| - 1;
      SortDistinct(key, xs[..n]);
      InsertDistinct(key, SortBy(key, xs[..n]), xs[n]);
      DistinctAppend(key, xs[..n], xs[n]);
      assert xs == xs[..n] + [xs[n]];
    }
  }

  /** Sorted rows rise strictly exactly when no key was repeated. */
  lemma SortStrict<T>(key: T -> string, xs: seq<T>)
    ensures RisingBy(key, SortBy(key, xs)) <==> DistinctBy(key, xs)
  {
    var ys := SortBy(key, xs);
    SortDistinct(key, xs);
    SortCalm(key, xs);
    if RisingBy(key, ys) {
      forall i, j | 0 <= i < j < |ys| ensures key(ys[i]) != key(ys[j]) { RisingByFar(key, ys, i, j); }
    }
    if DistinctBy(key, ys) {
      forall i | 0 < i < |ys| ensures Less(key(ys[i - 1]), key(ys[i])) { LessTotal(key(ys[i - 1]), key(ys[i])); }
    }
  }

  // ------------------------------------------------------------------ listings of a table

  /** The table whose rows are listed; a later row of the same key would win. */
  function Table<T>(key: T -> string, rows: seq<T>): map<string, T> {
    if rows == [] then map[] else Table(key, rows[..|rows| - 1])[key(rows[|rows| - 1]) := rows[|rows| - 1]]
  }

  lemma {:induction false} RisingByFar<T>(key: T -> string, rows: seq<T>, i: nat, j: nat)
    requires RisingBy(key, rows) && i < j < |rows|
    ensures Less(key(rows[i]), key(rows[j])) && key(rows[i]) != key(rows[j])
    decreases j - i
  {
    assert Less(key(rows[j - 1]), key(rows[j]));
    if i + 1 < j {
      RisingByFar(key, rows, i, j - 1);
      LessTransitive(key(rows[i]), key(rows[j - 1]), key(rows[j]));
    }
    LessIrreflexive(key(rows[i]));
  }

  lemma RisingByPrefix<T>(key: T -> string, rows: seq<T>, n: nat)
    requires RisingBy(key, rows) && n <= |rows|
    ensures RisingBy(key, rows[..n])
  {
    forall i | 0 < i < n ensures Less(key(rows[..n][i - 1]), key(rows[..n][i])) {
      assert rows[..n][i] == rows[i] && rows[..n][i - 1] == rows[i - 1];
    }
  }

  /** A rising listing holds each row of its table under its own key. */
  lemma {:induction false} TableHolds<T>(key: T -> string, rows: seq<T>, i: nat)
    requires RisingBy(key, rows) && i < |rows|
    ensures key(rows[i]) in Table(key, rows) && Table(key, rows)[key(rows[i])] == rows[i]
    decreases |rows|
  {
    var n := |rows| - 1;
    if i < n {
      RisingByPrefix(key, rows, n);
      TableHolds(key, rows[..n], i);
      RisingByFar(key, rows, i, n);
      assert rows[..n][i] == rows[i];
    }
  }

  /** And its table holds nothing else. */
  lemma {:induction false} TableFrom<T>(key: T -> string, rows: seq<T>, id: string) returns (i: nat)
    requires id in Table(key, rows)
    ensures i < |rows| && key(rows[i]) == id
    decreases |rows|
  {
    var n := |rows| - 1;
    if key(rows[n]) == id { i := n; } else { i := TableFrom(key, rows[..n], id); }
  }

  lemma TableRows<T>(key: T -> string, rows: seq<T>)
    requires RisingBy(key, rows)
    ensures forall i :: 0 <= i < |rows| ==>
      key(rows[i]) in Table(key, rows) && Table(key, rows)[key(rows[i])] == rows[i]
    ensures forall id :: id in Table(key, rows) ==> exists i :: 0 <= i < |rows| && key(rows[i]) == id
  {
    forall i | 0 <= i < |rows| ensures key(rows[i]) in Table(key, rows) && Table(key, rows)[key(rows[i])] == rows[i] {
      TableHolds(key, rows, i);
    }
    forall id | id in Table(key, rows) ensures exists i :: 0 <= i < |rows| && key(rows[i]) == id {
      var i := TableFrom(key, rows, id);
    }
  }

  lemma ListedRising<T>(key: T -> string, ids: seq<string>, rows: seq<T>)
    requires Rising(ids) && |rows| == |ids| && forall k :: 0 <= k < |ids| ==> key(rows[k]) == ids[k]
    ensures RisingBy(key, rows)
  {
    forall i | 0 < i < |rows| ensures Less(key(rows[i - 1]), key(rows[i])) {
      assert Less(ids[i - 1], ids[i]);
    }
  }

  /** Reading a keyed table in id order lists it completely. */
  lemma ListedTable<T>(key: T -> string, table: map<string, T>, ids: seq<string>, rows: seq<T>)
    requires Rising(ids) && (forall id :: id in ids <==> id in table) && |rows| == |ids|
    requires forall k :: 0 <= k < |ids| ==> key(rows[k]) == ids[k]
    requires forall k :: 0 <= k < |ids| ==> ids[k] in table && rows[k] == table[ids[k]]
    ensures RisingBy(key, rows) && Table(key, rows) == table
  {
    ListedRising(key, ids, rows);
    forall id | id in table ensures id in Table(key, rows) && Table(key, rows)[id] == table[id] {
      var k :| 0 <= k < |ids| && ids[k] == id;
      TableHolds(key, rows, k);
    }
    forall id | id in Table(key, rows) ensures id in table {
      var k := TableFrom(key, rows, id);
      assert ids[k] in table;
    }
    assert Table(key, rows).Keys == table.Keys;
  }

  /** The rows of a table under the given ids. */
  function Select<T>(table: map<string, T>, ids: seq<string>): (rows: seq<T>)
    requires forall id :: id in ids ==> id in table
    ensures |rows| == |ids| && forall k :: 0 <= k < |ids| ==> ids[k] in table && rows[k] == table[ids[k]]
    decreases |ids|
  {
    if ids == [] then []
    else
      assert ids[|ids| - 1] in ids;
      Select(table, ids[..|ids| - 1]) + [table[ids[|ids| - 1]]]
  }
}
