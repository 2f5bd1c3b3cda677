/** The name-to-id lookups: `SELECT id FROM <table> WHERE name = ?`, then
    `fetchone()`, then `row['id'] if row else None`. */
module Lookup {
  import opened Values

  /** The two columns of a row that the lookup reads. */
  datatype Named = Named(id: int, name: string)

  /** The row `fetchone()` returns: SQLite gives no order without ORDER BY, so
      the model takes the first match in storage order; callers rely only on
      the contract, which promises some matching row. */
  function FetchByName(rows: seq<Named>, name: string): (r: Option<Named>)
    ensures r.None? <==> forall i :: 0 <= i < |rows| ==> rows[i].name != name
    ensures r.Some? ==> r.value in rows && r.value.name == name
  {
    if rows == [] then None
    else if rows[0].name == name then Some(rows[0])
    else FetchByName(rows[1..], name)
  }

  /** A fetched row yields its id; no row yields None. */
  function ProjectId(row: Option<Named>): Option<int>
  {
    match row
    case None => None
    case Some(r) => Some(r.id)
  }

  /** The id of a row named `name`, if the table has one. */
  function IdByName(rows: seq<Named>, name: string): (r: Option<int>)
    ensures r.None? <==> forall i :: 0 <= i < |rows| ==> rows[i].name != name
    ensures r.Some? ==> exists i :: 0 <= i < |rows| && rows[i] == Named(r.value, name)
  {
    ProjectId(FetchByName(rows, name))
  }
}
