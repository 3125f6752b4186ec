/**
 * The hosted relational backend, reduced to in-memory tables. A table is a
 * sequence of rows; `insert`, `update(...).eq(...)` and
 * `select('*').eq(...)` become an append, a pointwise patch and a filter. A
 * request that returns an error is a `fails` parameter: the table is left as
 * it was.
 */
module Backend {

  import opened Wrappers
  import opened Types

  /** The rows a filter keeps, in table order. */
  function Select<T(!new)>(rows: seq<T>, matches: T -> bool): (r: seq<T>)
    ensures |r| <= |rows|
    ensures forall x :: x in r <==> x in rows && matches(x)
  {
    if rows == [] then []
    else
      var init, last := rows[..|rows| - 1], rows[|rows| - 1];
      assert rows == init + [last];
      Select(init, matches) + (if matches(last) then [last] else [])
  }

  /** Filtering distributes over appending rows. */
  lemma {:induction false} SelectAppend<T(!new)>(a: seq<T>, b: seq<T>, matches: T -> bool)
    ensures Select(a + b, matches) == Select(a, matches) + Select(b, matches)
    decreases |b|
  {
    if b == [] {
      assert a + b == a;
    } else {
      var init := b[..|b| - 1];
      assert (a + b)[..|a + b| - 1] == a + init;
      SelectAppend(a, init, matches);
    }
  }

  /** When no row matches, the filter keeps nothing. */
  lemma {:induction false} SelectNone<T(!new)>(rows: seq<T>, matches: T -> bool)
    requires forall x :: x in rows ==> !matches(x)
    ensures Select(rows, matches) == []
    decreases |rows|
  {
    if rows != [] {
      SelectNone(rows[..|rows| - 1], matches);
    }
  }

  /** The rows after `update(patch)` restricted to the rows that match. */
  function Updated<T>(rows: seq<T>, matches: T -> bool, patch: T -> T): (r: seq<T>)
    ensures |r| == |rows|
    ensures forall i :: 0 <= i < |rows| && !matches(rows[i]) ==> r[i] == rows[i]
    ensures forall i :: 0 <= i < |rows| && matches(rows[i]) ==> r[i] == patch(rows[i])
  {
    seq(|rows|, i requires 0 <= i < |rows| => if matches(rows[i]) then patch(rows[i]) else rows[i])
  }

  /** `.single()`: the row when exactly one matched; an error, hence no data, otherwise. */
  function Single<T>(rows: seq<T>): (r: Option<T>)
    ensures r.Some? <==> |rows| == 1
    ensures r.Some? ==> r.value == rows[0]
  {
    if |rows| == 1 then Some(rows[0]) else None
  }

  // ------------------------------------------------------------ shared queries

  function IsActiveEmployeeOf(establishmentId: string): Employee -> bool {
    (e: Employee) => e.establishmentId == establishmentId && e.isActive
  }

  /**
   * The staff query every screen runs: the active employees of one
   * establishment, in table order (the screens' `order` clauses are applied
   * on top of this).
   */
  function ActiveEmployeesOf(rows: seq<Employee>, establishmentId: string): (r: seq<Employee>)
    ensures forall e :: e in r <==> e in rows && e.establishmentId == establishmentId && e.isActive
  {
    Select(rows, IsActiveEmployeeOf(establishmentId))
  }

  class Table<T> {
    var rows: seq<T>

    constructor (rows: seq<T>)
      ensures this.rows == rows
    {
      this.rows := rows;
    }

    /** `insert(row)`: one row appended, or nothing when the request fails. */
    method Insert(row: T, fails: bool)
      modifies this
      ensures rows == if fails then old(rows) else old(rows) + [row]
    {
      if !fails {
        rows := rows + [row];
      }
    }

    /** `update(patch).eq(...)`: every matching row patched in place, or nothing on failure. */
    method Update(matches: T -> bool, patch: T -> T, fails: bool)
      modifies this
      ensures rows == if fails then old(rows) else Updated(old(rows), matches, patch)
    {
      if !fails {
        rows := Updated(rows, matches, patch);
      }
    }
  }
}
