/**
 * Readings of household electricity meters, the errors the two scripts can
 * raise, and the row selection that both scripts use to drop implausible
 * consumption values.
 */
module MeterData {

  /** One row of the dataset, with its timestamp already split into calendar fields. */
  datatype Reading = Reading(meterId: string, day: int, month: int, year: int, consumption: real)

  /** The calendar years a pandas timestamp (nanoseconds since 1970 in 64 bits) can hold. */
  const MinYear: int := 1677
  const MaxYear: int := 2262

  /** A reading whose timestamp came out of the day-first timestamp parser. */
  predicate WellFormed(r: Reading) {
    1 <= r.month <= 12 && 1 <= r.day <= 31 && MinYear <= r.year <= MaxYear
  }

  /** The exceptions the scripts let escape: int() on a bad token, a month with no name, end of console input. */
  datatype Error = ValueError(literal: string) | KeyError(key: int) | EndOfInput

  datatype Result<+T> = Ok(value: T) | Err(error: Error)

  /** xs can be obtained from ys by deleting rows, without reordering or changing any. */
  predicate IsSubsequence<T(==)>(xs: seq<T>, ys: seq<T>)
    decreases |ys|
  {
    if xs == [] then true
    else if ys == [] then false
    else (xs[0] == ys[0] && IsSubsequence(xs[1..], ys[1..])) || IsSubsequence(xs, ys[1..])
  }

  /** Deleting rows from a table that was itself obtained by deleting rows. */
  lemma {:induction false} IsSubsequenceTrans<T>(xs: seq<T>, ys: seq<T>, zs: seq<T>)
    requires IsSubsequence(xs, ys) && IsSubsequence(ys, zs)
    ensures IsSubsequence(xs, zs)
    decreases |zs|
  {
    if xs != [] {
      if IsSubsequence(ys, zs[1..]) {
        IsSubsequenceTrans(xs, ys, zs[1..]);
      } else if IsSubsequence(xs, ys[1..]) {
        IsSubsequenceTrans(xs, ys[1..], zs[1..]);
      } else {
        IsSubsequenceTrans(xs[1..], ys[1..], zs[1..]);
      }
    }
  }

  /** `df[mask]`: the rows for which `keep` holds, in their original order. */
  function Where(rows: seq<Reading>, keep: Reading -> bool): (r: seq<Reading>)
    ensures forall x :: x in r <==> x in rows && keep(x)
    ensures forall x :: multiset(r)[x] == if keep(x) then multiset(rows)[x] else 0
    ensures IsSubsequence(r, rows)
    ensures |r| <= |rows|
  {
    if rows == [] then []
    else if keep(rows[0]) then
      var tail := Where(rows[1..], keep);
      assert ([rows[0]] + tail)[1..] == tail;
      assert rows == [rows[0]] + rows[1..];
      [rows[0]] + tail
    else
      assert rows == [rows[0]] + rows[1..];
      Where(rows[1..], keep)
  }

  /** The conjunction of two masks. */
  function Both(p: Reading -> bool, q: Reading -> bool): Reading -> bool {
    x => p(x) && q(x)
  }

  /** Selecting twice is selecting once by the conjunction of both masks. */
  lemma {:induction false} WhereWhere(rows: seq<Reading>, p: Reading -> bool, q: Reading -> bool)
    ensures Where(Where(rows, p), q) == Where(rows, Both(p, q))
  {
    if rows != [] {
      WhereWhere(rows[1..], p, q);
      if p(rows[0]) {
        assert Where(rows, p) == [rows[0]] + Where(rows[1..], p);
        assert ([rows[0]] + Where(rows[1..], p))[1..] == Where(rows[1..], p);
      }
    }
  }

  /** Two masks that agree on every row select the same rows. */
  lemma {:induction false} WhereSameMask(rows: seq<Reading>, p: Reading -> bool, q: Reading -> bool)
    requires forall x :: x in rows ==> p(x) == q(x)
    ensures Where(rows, p) == Where(rows, q)
  {
    if rows != [] {
      assert forall x :: x in rows[1..] ==> x in rows;
      WhereSameMask(rows[1..], p, q);
    }
  }

  /** A mask that holds of every row selects the whole table. */
  lemma {:induction false} WhereKeepsAll(rows: seq<Reading>, p: Reading -> bool)
    requires forall x :: x in rows ==> p(x)
    ensures Where(rows, p) == rows
  {
    if rows != [] {
      assert forall x :: x in rows[1..] ==> x in rows;
      WhereKeepsAll(rows[1..], p);
    }
  }

  /** Selections commute: the result is the intersection whichever runs first. */
  lemma WhereCommutes(rows: seq<Reading>, p: Reading -> bool, q: Reading -> bool)
    ensures Where(Where(rows, p), q) == Where(Where(rows, q), p)
  {
    WhereWhere(rows, p, q);
    WhereWhere(rows, q, p);
    WhereSameMask(rows, Both(p, q), Both(q, p));
  }

  /** Selecting again by the same mask changes nothing. */
  lemma WhereIdempotent(rows: seq<Reading>, p: Reading -> bool)
    ensures Where(Where(rows, p), p) == Where(rows, p)
  {
    WhereKeepsAll(Where(rows, p), p);
  }

  /** The mask both scripts apply to the consumption column: above 0, below 3, and not 0. */
  predicate Plausible(r: Reading)
    ensures Plausible(r) <==> 0.0 < r.consumption < 3.0
  {
    r.consumption > 0.0 && r.consumption < 3.0 && r.consumption != 0.0
  }

  /** Drop the readings treated as measurement errors. */
  function CleanConsumptionData(rows: seq<Reading>): (r: seq<Reading>)
    ensures forall x :: x in r <==> x in rows && 0.0 < x.consumption < 3.0
    ensures forall x :: multiset(r)[x] == if 0.0 < x.consumption < 3.0 then multiset(rows)[x] else 0
    ensures IsSubsequence(r, rows)
  {
    Where(rows, Plausible)
  }

  /** The `!= 0` conjunct is implied by `> 0`: the mask selects the same rows without it. */
  lemma NonZeroConjunctRedundant(rows: seq<Reading>)
    ensures CleanConsumptionData(rows) == Where(rows, (x: Reading) => 0.0 < x.consumption < 3.0)
  {
    WhereSameMask(rows, Plausible, (x: Reading) => 0.0 < x.consumption < 3.0);
  }

  /** Cleaning a cleaned table changes nothing. */
  lemma CleanIdempotent(rows: seq<Reading>)
    ensures CleanConsumptionData(CleanConsumptionData(rows)) == CleanConsumptionData(rows)
  {
    WhereIdempotent(rows, Plausible);
  }

  /** A reading outside the open interval (0, 3) never influences the cleaned table. */
  lemma {:induction false} CleanIgnoresImplausible(rows: seq<Reading>, bad: Reading)
    requires !(0.0 < bad.consumption < 3.0)
    ensures CleanConsumptionData(rows + [bad]) == CleanConsumptionData(rows)
    ensures CleanConsumptionData([bad] + rows) == CleanConsumptionData(rows)
  {
    if rows != [] {
      assert (rows + [bad])[1..] == rows[1..] + [bad];
      CleanIgnoresImplausible(rows[1..], bad);
    }
    assert ([bad] + rows)[1..] == rows;
  }
}
