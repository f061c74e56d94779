/**
 * The user lookup (src/user/mod.rs): one row whose username or email equals the
 * identifier, over the `users` table given as a sequence of rows, with the mapping of
 * its database errors.
 */
module UserLookup {
  import opened Wrappers
  import opened ApiErrors
  import opened Users

  /** The row matches the identifier (`WHERE username = $1 OR email = $1`). */
  predicate Matches(row: UserWithPassword, identifier: string)
  {
    row.username == identifier || row.email == identifier
  }

  /**
   * Index of a matching row at or after `from`. `LIMIT 1` without an order leaves the
   * row unspecified; the model takes the first in table order.
   */
  function FirstMatchAt(rows: seq<UserWithPassword>, identifier: string, from: nat): (r: Option<nat>)
    requires from <= |rows|
    decreases |rows| - from
    ensures r.Some? ==> from <= r.value < |rows| && Matches(rows[r.value], identifier)
    ensures r.None? ==> forall k :: from <= k < |rows| ==> !Matches(rows[k], identifier)
  {
    if from == |rows| then None
    else if Matches(rows[from], identifier) then Some(from)
    else FirstMatchAt(rows, identifier, from + 1)
  }

  /**
   * `fetch_one` of the lookup query: a matching row, `RowNotFound` when none matches,
   * or the failure `outage` when the database cannot answer at all.
   */
  function FetchOne(rows: seq<UserWithPassword>, outage: Option<SqlxError>, identifier: string)
    : (r: Result<UserWithPassword, SqlxError>)
    ensures outage.Some? ==> r == Err(outage.value)
    ensures r.Ok? ==> r.value in rows && Matches(r.value, identifier)
    ensures outage.None? && r.Err? ==> r.error == RowNotFound
    ensures outage.None? ==> (r.Ok? <==> exists row :: row in rows && Matches(row, identifier))
  {
    match outage
    case Some(e) => Err(e)
    case None =>
      match FirstMatchAt(rows, identifier, 0)
      case Some(i) => Ok(rows[i])
      case None => Err(RowNotFound)
  }

  /**
   * `check_user_exists`: the stored row, hash included; `NotFound("User <id> not found")`
   * when no row matches; every other database error as `InternalServer` with its text,
   * without the unique-violation classification.
   */
  function CheckUserExists(rows: seq<UserWithPassword>, outage: Option<SqlxError>, identifier: string)
    : (r: Result<UserWithPassword, ApiError>)
    ensures r.Ok? ==> r.value in rows && Matches(r.value, identifier)
    ensures outage.None? ==> (r.Ok? <==> exists row :: row in rows && Matches(row, identifier))
    ensures FetchOne(rows, outage, identifier) == Err(RowNotFound) ==>
      r == Err(NotFound("User " + identifier + " not found"))
    ensures outage.Some? && outage.value != RowNotFound ==> r == Err(InternalServer(SqlxText(outage.value)))
    ensures r.Err? ==> r.error.NotFound? || r.error.InternalServer?
  {
    match FetchOne(rows, outage, identifier)
    case Ok(user) => Ok(user)
    case Err(RowNotFound) => Err(NotFound("User " + identifier + " not found"))
    case Err(e) => Err(InternalServer(SqlxText(e)))
  }

  /** A duplicate-key error reaching the lookup is not classified: it is a 500, never a 409. */
  lemma LookupNeverReportsConflict(rows: seq<UserWithPassword>, outage: Option<SqlxError>, identifier: string)
    ensures CheckUserExists(rows, outage, identifier).Err? ==>
      StatusCode(CheckUserExists(rows, outage, identifier).error) != Conflict409
  {
  }
}
