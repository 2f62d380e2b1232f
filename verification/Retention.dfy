/** Which backup bundles may not be retired (scripts/archive-production-offsite-backups.py, protected). */
module Retention {
  import opened Options
  import opened Sorting
  import opened Texts

  /** One child of the backup directory. copied is the receipt's time in seconds and
      is absent when the metadata could not be read; mtime is in nanoseconds. */
  datatype Row = Row(name: Text, mtime: int, copied: Option<real>)

  datatype Policy = Policy(age: real, tolerance: real)

  predicate Newest(a: real, b: real) {
    a >= b
  }

  function Times(rows: seq<Row>): seq<real> {
    if rows == [] then []
    else if rows[0].copied.None? then Times(rows[1..])
    else [rows[0].copied.value] + Times(rows[1..])
  }

  /** The second newest receipt time, or the only one; None stands for infinity. */
  function Cutoff(rows: seq<Row>): Option<real> {
    var times := SortBy(Newest, Times(rows));
    if times == [] then None else Some(times[if |times| < 2 then 0 else 1])
  }

  function Min(a: real, b: real): real {
    if b < a then b else a
  }

  function Abs(a: real): real {
    if a < 0.0 then -a else a
  }

  function Modified(row: Row): real {
    row.mtime as real / 1000000000.0
  }

  predicate Recent(row: Row, now: real, policy: Policy)
    requires row.copied.Some?
  {
    || Min(now - row.copied.value, now - Modified(row)) < policy.age
    || Abs(row.copied.value - Modified(row)) > policy.tolerance
  }

  predicate IsProtected(row: Row, cutoff: Option<real>, now: real, policy: Policy) {
    || row.copied.None?
    || (cutoff.Some? && row.copied.value >= cutoff.value)
    || Recent(row, now, policy)
  }

  function Elements(rows: seq<Row>): set<Row> {
    set r | r in rows
  }

  /** The names that must stay. */
  method Protected(rows: seq<Row>, now: real, policy: Policy) returns (keep: set<Text>)
    requires forall i, j | 0 <= i < j < |rows| :: rows[i].name != rows[j].name
    ensures forall name :: name in keep <==>
      exists row | row in rows :: row.name == name && RankProtected(row, Elements(rows), now, policy)
  {
    var cutoff := Cutoff(rows);
    keep := {};
    for i := 0 to |rows|
      invariant forall name :: name in keep <==>
        exists k | 0 <= k < i :: rows[k].name == name && IsProtected(rows[k], cutoff, now, policy)
    {
      if IsProtected(rows[i], cutoff, now, policy) {
        keep := keep + {rows[i].name};
      }
    }
    forall row | row in rows
      ensures IsProtected(row, cutoff, now, policy) <==> RankProtected(row, Elements(rows), now, policy)
    {
      ProtectedByRank(rows, row, now, policy);
    }
    forall name ensures name in keep <==>
      exists row | row in rows :: row.name == name && RankProtected(row, Elements(rows), now, policy)
    {
      if name in keep {
        var k :| 0 <= k < |rows| && rows[k].name == name && IsProtected(rows[k], cutoff, now, policy);
        assert rows[k] in rows;
      }
    }
  }

  // ---------- what the cutoff means: rank among the receipted bundles ----------

  function Newer(rows: set<Row>, t: real): set<Row> {
    set r | r in rows && r.copied.Some? && r.copied.value > t
  }

  predicate RankProtected(row: Row, rows: set<Row>, now: real, policy: Policy) {
    row.copied.None? || |Newer(rows, row.copied.value)| < 2 || Recent(row, now, policy)
  }

  /** In plain terms: a bundle must stay whose receipt cannot be read; of which fewer than
      two others are strictly newer; which was copied or modified less than the age ago; or
      whose two times, of which the modification time counts nanoseconds, are further apart
      than the tolerance. */
  lemma RankProtectedMeans(row: Row, rows: set<Row>, now: real, policy: Policy)
    ensures RankProtected(row, rows, now, policy) <==>
      || row.copied.None?
      || |set r | r in rows && r.copied.Some? && row.copied.value < r.copied.value| < 2
      || now < row.copied.value + policy.age
      || now * 1e9 < row.mtime as real + policy.age * 1e9
      || row.copied.value * 1e9 > row.mtime as real + policy.tolerance * 1e9
      || row.copied.value * 1e9 < row.mtime as real - policy.tolerance * 1e9
  {
    if row.copied.Some? {
      assert Newer(rows, row.copied.value) == set r | r in rows && r.copied.Some? && row.copied.value < r.copied.value;
      assert Modified(row) * 1e9 == row.mtime as real;
    }
  }

  function CountAbove(times: seq<real>, t: real): nat {
    if times == [] then 0 else (if times[0] > t then 1 else 0) + CountAbove(times[1..], t)
  }

  lemma {:induction false} CountAboveInsert(x: real, times: seq<real>, t: real)
    ensures CountAbove(Insert(Newest, x, times), t) == CountAbove([x] + times, t)
  {
    if times != [] && !Newest(x, times[0]) {
      CountAboveInsert(x, times[1..], t);
      assert ([x] + times)[1..] == times;
      assert Insert(Newest, x, times)[1..] == Insert(Newest, x, times[1..]);
      assert ([x] + times[1..])[1..] == times[1..];
    }
  }

  lemma {:induction false} CountAboveSort(times: seq<real>, t: real)
    ensures CountAbove(SortBy(Newest, times), t) == CountAbove(times, t)
  {
    if times != [] {
      CountAboveSort(times[1..], t);
      CountAboveInsert(times[0], SortBy(Newest, times[1..]), t);
      assert ([times[0]] + SortBy(Newest, times[1..]))[1..] == SortBy(Newest, times[1..]);
    }
  }

  lemma {:induction false} NoneAbove(times: seq<real>, t: real)
    requires SortedBy(Newest, times) && (times != [] ==> times[0] <= t)
    ensures CountAbove(times, t) == 0
  {
    if times != [] {
      assert |times| > 1 ==> Newest(times[0], times[1]);
      NoneAbove(times[1..], t);
    }
  }

  lemma SecondNewest(times: seq<real>, t: real)
    requires SortedBy(Newest, times)
    ensures CountAbove(times, t) < 2 <==> (|times| < 2 || times[1] <= t)
  {
    if |times| >= 2 {
      assert Newest(times[0], times[1]);
      assert times[1..][0] == times[1];
      if times[1] <= t {
        NoneAbove(times[1..], t);
      }
    }
  }

  lemma {:induction false} CountIsCardinality(rows: seq<Row>, t: real)
    requires Distinct(rows)
    ensures CountAbove(Times(rows), t) == |Newer(Elements(rows), t)|
  {
    if rows == [] {
      assert Newer(Elements(rows), t) == {};
    } else {
      CountIsCardinality(rows[1..], t);
      var rest := Newer(Elements(rows[1..]), t);
      assert rows == [rows[0]] + rows[1..] && rows[0] !in rows[1..];
      if rows[0].copied.Some? && rows[0].copied.value > t {
        assert Newer(Elements(rows), t) == {rows[0]} + rest;
      } else {
        assert Newer(Elements(rows), t) == rest;
      }
      if rows[0].copied.Some? {
        assert Times(rows)[1..] == Times(rows[1..]);
      }
    }
  }

  /** The cutoff test says exactly: fewer than two bundles are strictly newer. */
  lemma ProtectedByRank(rows: seq<Row>, row: Row, now: real, policy: Policy)
    requires row in rows && Distinct(rows)
    ensures IsProtected(row, Cutoff(rows), now, policy) <==> RankProtected(row, Elements(rows), now, policy)
  {
    if row.copied.Some? {
      var t := row.copied.value;
      var times := SortBy(Newest, Times(rows));
      TimeListed(rows, row);
      MultisetMember(times, Times(rows));
      SortBySorted(Newest, Times(rows));
      SecondNewest(times, t);
      CountAboveSort(Times(rows), t);
      CountIsCardinality(rows, t);
    }
  }

  lemma {:induction false} TimeListed(rows: seq<Row>, row: Row)
    requires row in rows && row.copied.Some?
    ensures row.copied.value in Times(rows)
  {
    if row != rows[0] {
      TimeListed(rows[1..], row);
    }
  }

  // ---------- whole runs of retirements, arrivals and passing time ----------

  datatype Moment = Moment(rows: set<Row>, now: real)

  predicate Retires(before: Moment, after: Moment, row: Row, policy: Policy) {
    && row in before.rows && !RankProtected(row, before.rows, before.now, policy)
    && after.rows == before.rows - {row} && before.now <= after.now
  }

  ghost predicate CatalogStep(before: Moment, after: Moment, policy: Policy) {
    || (before.rows <= after.rows && before.now <= after.now)
    || exists row | row in before.rows :: Retires(before, after, row, policy)
  }

  ghost predicate CatalogRun(run: seq<Moment>, policy: Policy) {
    forall i | 0 <= i < |run| - 1 :: CatalogStep(run[i], run[i + 1], policy)
  }

  lemma Subset<T>(a: set<T>, b: set<T>)
    requires a <= b
    ensures |a| <= |b|
  {
    if a != b {
      assert b == a + (b - a);
    }
  }

  /** Two newer survivors stay two newer survivors: a bundle among them that is
      retired leaves two that are newer still. */
  lemma NewerSurvive(before: Moment, after: Moment, t: real, policy: Policy)
    requires CatalogStep(before, after, policy)
    requires |Newer(before.rows, t)| >= 2
    ensures |Newer(after.rows, t)| >= 2
  {
    if before.rows <= after.rows {
      Subset(Newer(before.rows, t), Newer(after.rows, t));
    } else {
      var row :| row in before.rows && Retires(before, after, row, policy);
      if row.copied.value > t {
        var newest := Newer(before.rows, row.copied.value);
        assert newest <= Newer(after.rows, t);
        Subset(newest, Newer(after.rows, t));
      } else {
        assert Newer(after.rows, t) == Newer(before.rows, t);
      }
    }
  }

  /** Retiring an unprotected bundle changes nobody else's protection. */
  lemma RetiringKeepsProtection(before: Moment, after: Moment, gone: Row, row: Row, policy: Policy)
    requires Retires(before, after, gone, policy) && after.now == before.now
    requires row in after.rows
    ensures RankProtected(row, after.rows, after.now, policy) <==> RankProtected(row, before.rows, before.now, policy)
  {
    if row.copied.Some? {
      var t := row.copied.value;
      assert Newer(after.rows, t) <= Newer(before.rows, t);
      Subset(Newer(after.rows, t), Newer(before.rows, t));
      if |Newer(before.rows, t)| >= 2 {
        assert CatalogStep(before, after, policy);
        NewerSurvive(before, after, t, policy);
      }
    }
  }

  /** Once a bundle may be retired it may be retired ever after, so a planned
      bundle is never later refused as protected. */
  lemma {:induction false} UnprotectedForever(run: seq<Moment>, i: nat, j: nat, row: Row, policy: Policy)
    requires CatalogRun(run, policy) && i <= j < |run|
    requires !RankProtected(row, run[i].rows, run[i].now, policy)
    ensures !RankProtected(row, run[j].rows, run[j].now, policy)
    decreases j - i
  {
    if i < j {
      assert CatalogStep(run[i], run[i + 1], policy);
      NewerSurvive(run[i], run[i + 1], row.copied.value, policy);
      UnprotectedForever(run, i + 1, j, row, policy);
    }
  }

  /** However long retirements go on, every receipted bundle that was ever there
      is still there or has two strictly newer ones that are. */
  lemma {:induction false} TwoNewestStay(run: seq<Moment>, i: nat, j: nat, row: Row, policy: Policy)
    requires CatalogRun(run, policy) && i <= j < |run|
    requires row in run[i].rows && row.copied.Some?
    ensures row in run[j].rows || |Newer(run[j].rows, row.copied.value)| >= 2
    decreases j
  {
    if i < j {
      TwoNewestStay(run, i, j - 1, row, policy);
      var before, after := run[j - 1], run[j];
      assert CatalogStep(before, run[j - 1 + 1], policy);
      if |Newer(before.rows, row.copied.value)| >= 2 {
        NewerSurvive(before, after, row.copied.value, policy);
      }
    }
  }
}
