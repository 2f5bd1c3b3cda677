/** `get_concentration_id` and `update_concentration`
    (registration_tracker/app/controllers/concentration.py). */
module Concentrations {
  import opened Values
  import opened SqlText
  import opened PartialUpdate
  import opened Lookup

  /** A row of the Concentrations table. */
  datatype ConcentrationRow = ConcentrationRow(id: int, name: string, majorId: int)

  const ConcentrationTable: Entity :=
    Entity("Concentrations", "Concentration updated successfully.", "Error updating concentration: ", "id = ?")

  function ConcentrationNames(concentrations: seq<ConcentrationRow>): seq<Named>
  {
    seq(|concentrations|, i requires 0 <= i < |concentrations| =>
      Named(concentrations[i].id, concentrations[i].name))
  }

  /** The id of the concentration called `name`, or None when there is none. */
  function GetConcentrationId(concentrations: seq<ConcentrationRow>, name: string): (r: Option<int>)
    ensures r.None? <==> forall i :: 0 <= i < |concentrations| ==> concentrations[i].name != name
    ensures r.Some? ==>
      exists i :: 0 <= i < |concentrations| && concentrations[i].id == r.value && concentrations[i].name == name
  {
    var rows := ConcentrationNames(concentrations);
    var r := IdByName(rows, name);
    assert forall i :: 0 <= i < |concentrations| ==> rows[i].name == concentrations[i].name;
    r
  }

  function ConcentrationArgs(name: Value, majorId: Value): seq<Arg>
  {
    [("name", name), ("major_id", majorId)]
  }

  method UpdateConcentration(concentrationId: Value, name: Value, majorId: Value, db: DbOutcome)
    returns (u: Update)
    ensures u.sent.None? <==> !Truthy(name) && !Truthy(majorId)
    ensures u.sent.None? ==> u.reply == Reply(false, "No fields to update.")
    ensures u.sent.Some? ==>
      var fragments := Fragment("name", name) + Fragment("major_id", majorId);
      && u.sent.value.table == "Concentrations"
      && u.sent.value.whereClause == "id = ?"
      && u.sent.value.setClause == Join(fragments)
      && Split(u.sent.value.setClause) == fragments
      && u.sent.value.params == Param(name) + Param(majorId) + [concentrationId]
    ensures u.sent.Some? && db.DbOk? ==> u.reply == Reply(true, "Concentration updated successfully.")
    ensures u.sent.Some? && db.DbError? ==>
      u.reply == Reply(false, "Error updating concentration: " + db.detail)
  {
    var args := ConcentrationArgs(name, majorId);
    ConsArg("name", name, [("major_id", majorId)]);
    LastArg("major_id", majorId);
    assert args == [("name", name)] + [("major_id", majorId)];
    assert NoComma("name") && NoComma("major_id");
    IncludedEmpty(args);
    u := RunUpdate(ConcentrationTable, args, [concentrationId], db);
    if u.sent.Some? {
      SetClauseSplits(args);
    }
  }

  /** Only the major id given: one fragment, the concentration id after it. */
  method MajorOnlyScenario(concentrationId: int, majorId: int)
    requires majorId != 0
  {
    var u := UpdateConcentration(Int(concentrationId), Null, Int(majorId), DbOk);
    assert u.sent.value.params == [Int(majorId), Int(concentrationId)];
    assert Split(u.sent.value.setClause) == [Assignment("major_id")];
  }
}
