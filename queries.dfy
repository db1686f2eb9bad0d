/** The ORM queries the core issues against the `users` table: one field lookup
    (`created_at__date=…`, `created_at__gte=…`, …, or the admin selection `pk__in=…`)
    followed by `.count()`. A SQL comparison with a null `created_at` is never true. */
module Queries {
  import opened Models

  datatype Lookup =
    | CreatedOnDate(day: int)                    // created_at__date = day
    | CreatedAtOrAfter(instant: Timestamp)       // created_at__gte = instant
    | CreatedOnOrAfterDate(day: int)             // created_at__date__gte = day
    | CreatedOnOrBeforeDate(day: int)            // created_at__date__lte = day
    | CreatedInDateRange(first: int, last: int)  // created_at__date__range = [first, last]
    | IdIn(ids: set<int>)                        // pk__in = ids

  /** Whether row `u` satisfies lookup `q`. Days are `Models.DayOf` day numbers. As in SQL,
      a comparison with a null `created_at` is never true. */
  predicate Matches(q: Lookup, u: User)
    ensures !q.IdIn? && u.createdAt.None? ==> !Matches(q, u)
  {
    match q
    case IdIn(ids) => u.id in ids
    case CreatedOnDate(d) => u.createdAt.Some? && DayOf(u.createdAt.value) == d
    case CreatedAtOrAfter(t) => u.createdAt.Some? && u.createdAt.value >= t
    case CreatedOnOrAfterDate(d) => u.createdAt.Some? && DayOf(u.createdAt.value) >= d
    case CreatedOnOrBeforeDate(d) => u.createdAt.Some? && DayOf(u.createdAt.value) <= d
    case CreatedInDateRange(first, last) =>
      u.createdAt.Some? && first <= DayOf(u.createdAt.value) <= last
  }

  /** `filter(q).count()`: the number of rows that satisfy `q`. */
  function Count(rows: seq<User>, q: Lookup): (n: nat)
    ensures n <= |rows|
  {
    if rows == [] then 0
    else Count(rows[..|rows| - 1], q) + (if Matches(q, rows[|rows| - 1]) then 1 else 0)
  }

  /** The positions of the rows that satisfy `q`. */
  ghost function MatchingPositions(rows: seq<User>, q: Lookup): set<int> {
    set i | 0 <= i < |rows| && Matches(q, rows[i])
  }

  /** The count is the number of matching rows, however the rows are ordered into the sum. */
  lemma {:induction false} CountIsMatchingPositions(rows: seq<User>, q: Lookup)
    ensures Count(rows, q) == |MatchingPositions(rows, q)|
  {
    if rows != [] {
      var n := |rows| - 1;
      CountIsMatchingPositions(rows[..n], q);
      MatchingPositionsStep(rows, q);
    }
  }

  /** The matching positions of a table are those of all but its last row, plus the last
      position when that row matches. */
  lemma MatchingPositionsStep(rows: seq<User>, q: Lookup)
    requires rows != []
    ensures var n := |rows| - 1;
      MatchingPositions(rows, q)
      == MatchingPositions(rows[..n], q) + (if Matches(q, rows[n]) then {n} else {})
    ensures |rows| - 1 !in MatchingPositions(rows[..|rows| - 1], q)
  {
    var n := |rows| - 1;
    var init := rows[..n];
    forall i | 0 <= i < n ensures rows[i] == init[i] {
    }
  }

  /** No row matches exactly when the count is zero; every row matches exactly when
      the count is the size of the table. */
  lemma {:induction false} CountExtremes(rows: seq<User>, q: Lookup)
    ensures Count(rows, q) == 0 <==> forall i :: 0 <= i < |rows| ==> !Matches(q, rows[i])
    ensures Count(rows, q) == |rows| <==> forall i :: 0 <= i < |rows| ==> Matches(q, rows[i])
  {
    if rows != [] {
      var n := |rows| - 1;
      var init := rows[..n];
      CountExtremes(init, q);
      assert forall i :: 0 <= i < n ==> rows[i] == init[i];
    }
  }

  /** Counting distributes over concatenation of tables. */
  lemma {:induction false} CountAppend(a: seq<User>, b: seq<User>, q: Lookup)
    ensures Count(a + b, q) == Count(a, q) + Count(b, q)
    decreases |b|
  {
    if b == [] {
      assert a + b == a;
    } else {
      var n := |b| - 1;
      assert (a + b)[..|a + b| - 1] == a + b[..n];
      CountAppend(a, b[..n], q);
    }
  }

  /** Row by row, whatever `q1` selects in `a`, `q2` selects in `b`: then `q2` counts at least as many. */
  lemma {:induction false} CountMonotone(a: seq<User>, q1: Lookup, b: seq<User>, q2: Lookup)
    requires |a| == |b|
    requires forall i :: 0 <= i < |a| && Matches(q1, a[i]) ==> Matches(q2, b[i])
    ensures Count(a, q1) <= Count(b, q2)
  {
    if a != [] {
      var n := |a| - 1;
      CountMonotone(a[..n], q1, b[..n], q2);
    }
  }

  /** Counting one row gives 1 exactly when that row matches. */
  lemma CountSingle(u: User, q: Lookup)
    ensures Count([u], q) == (if Matches(q, u) then 1 else 0)
  {
    assert [u][..0] == [];
  }
}
