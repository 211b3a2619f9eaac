/**
 * The programmer console's table statistics: the five row counts, their
 * total, the largest of them, and each table's share as a progress value.
 */
module DatabaseStats {
  import opened Wrappers

  /** The row counts of the five tables, in the order the page lists them. */
  datatype TableCounts = TableCounts(profiles: nat, packages: nat, registrations: nat, rateLimits: nat, userRoles: nat)

  const InitialCounts := TableCounts(0, 0, 0, 0, 0)

  /** What the five count queries returned, or that one of them threw. */
  datatype FetchOutcome =
    | Threw
    | Answered(profiles: Option<nat>, packages: Option<nat>, registrations: Option<nat>, rateLimits: Option<nat>, userRoles: Option<nat>)

  /** `count || 0`: a null count reads as zero. */
  function CountOrZero(c: Option<nat>): (n: nat)
    ensures c.None? ==> n == 0
    ensures c.Some? ==> n == c.value
  {
    match c
    case None => 0
    case Some(v) => v
  }

  /** `fetchStats`: the counts after a refresh; a thrown query keeps the previous counts. */
  function Refresh(previous: TableCounts, outcome: FetchOutcome): (r: TableCounts)
    ensures outcome.Threw? ==> r == previous
    ensures outcome.Answered? ==>
      r.profiles == CountOrZero(outcome.profiles) && r.packages == CountOrZero(outcome.packages)
      && r.registrations == CountOrZero(outcome.registrations) && r.rateLimits == CountOrZero(outcome.rateLimits)
      && r.userRoles == CountOrZero(outcome.userRoles)
  {
    match outcome
    case Threw => previous
    case Answered(p, pk, rg, rl, ur) =>
      TableCounts(CountOrZero(p), CountOrZero(pk), CountOrZero(rg), CountOrZero(rl), CountOrZero(ur))
  }

  /** `Object.values(stats)`. */
  function Values(s: TableCounts): (v: seq<nat>)
    ensures |v| == 5
  {
    [s.profiles, s.packages, s.registrations, s.rateLimits, s.userRoles]
  }

  function Sum(xs: seq<nat>): nat {
    if |xs| == 0 then 0 else xs[0] + Sum(xs[1..])
  }

  /** `Math.max(init, ...xs)`. */
  function MaxOf(xs: seq<nat>, init: nat): (m: nat)
    ensures m >= init
    ensures forall i :: 0 <= i < |xs| ==> xs[i] <= m
    ensures m == init || exists i :: 0 <= i < |xs| && xs[i] == m
  {
    if |xs| == 0 then init
    else
      var rest := MaxOf(xs[1..], init);
      assert forall i :: 1 <= i < |xs| ==> xs[i] == xs[1..][i - 1];
      if xs[0] > rest then xs[0] else rest
  }

  /** `totalRows`: the five counts added up. */
  function TotalRows(s: TableCounts): (n: nat)
    ensures n == s.profiles + s.packages + s.registrations + s.rateLimits + s.userRoles
  {
    var v := Values(s);
    assert Sum(v[4..]) == s.userRoles by { assert v[4..][1..] == []; }
    assert Sum(v[3..]) == s.rateLimits + s.userRoles by { assert v[3..][1..] == v[4..]; }
    assert Sum(v[2..]) == s.registrations + s.rateLimits + s.userRoles by { assert v[2..][1..] == v[3..]; }
    assert Sum(v[1..]) == s.packages + s.registrations + s.rateLimits + s.userRoles by { assert v[1..][1..] == v[2..]; }
    Sum(v)
  }

  /** `maxRows`: the largest count, and at least 1. */
  function MaxRows(s: TableCounts): (m: nat)
    ensures m >= 1
    ensures forall i :: 0 <= i < 5 ==> Values(s)[i] <= m
    ensures m == 1 || exists i :: 0 <= i < 5 && Values(s)[i] == m
  {
    MaxOf(Values(s), 1)
  }

  /** The progress value of a table with `rowCount` rows. */
  function Progress(rowCount: nat, maxRows: nat): real
    requires maxRows >= 1
  {
    (rowCount as real / maxRows as real) * 100.0
  }

  /** A share of a positive whole lies in [0, 100], and the whole itself is 100. */
  lemma ProgressBounds(c: nat, m: nat)
    requires 1 <= m && c <= m
    ensures 0.0 <= Progress(c, m) <= 100.0
    ensures c == m ==> Progress(c, m) == 100.0
  {
    var q := c as real / m as real;
    assert q * (m as real) == c as real;
    assert 0.0 <= q <= 1.0;
  }

  /** Every table's progress value lies in [0, 100]. */
  lemma ProgressInRange(s: TableCounts, i: nat)
    requires i < 5
    ensures 0.0 <= Progress(Values(s)[i], MaxRows(s)) <= 100.0
  {
    ProgressBounds(Values(s)[i], MaxRows(s));
  }

  /** Some count reaches the maximum once any table has rows. */
  lemma MaxAttained(s: TableCounts) returns (k: nat)
    requires exists i :: 0 <= i < 5 && Values(s)[i] > 0
    ensures k < 5 && Values(s)[k] == MaxRows(s)
  {
    var j :| 0 <= j < 5 && Values(s)[j] > 0;
    if MaxRows(s) == 1 {
      k := j;
    } else {
      k :| 0 <= k < 5 && Values(s)[k] == MaxRows(s);
    }
  }

  /** When some table has rows, a table holding the largest count shows exactly 100. */
  lemma LargestGetsFull(s: TableCounts)
    requires exists i :: 0 <= i < 5 && Values(s)[i] > 0
    ensures exists i :: 0 <= i < 5 && Values(s)[i] == MaxRows(s) && Progress(Values(s)[i], MaxRows(s)) == 100.0
  {
    var k := MaxAttained(s);
    ProgressBounds(Values(s)[k], MaxRows(s));
  }
}
