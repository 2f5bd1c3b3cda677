/** `get_major_id` and `update_major` (registration_tracker/app/controllers/majors.py). */
module Majors {
  import opened Values
  import opened SqlText
  import opened PartialUpdate
  import opened Lookup

  /** A row of the Majors table. */
  datatype MajorRow = MajorRow(id: int, name: string, department: string)

  const MajorTable: Entity := Entity("Majors", "Major updated successfully.", "Error updating major: ", "id = ?")

  function MajorNames(majors: seq<MajorRow>): seq<Named>
  {
    seq(|majors|, i requires 0 <= i < |majors| => Named(majors[i].id, majors[i].name))
  }

  /** The id of the major called `name`, or None when no major has that name. */
  function GetMajorId(majors: seq<MajorRow>, name: string): (r: Option<int>)
    ensures r.None? <==> forall i :: 0 <= i < |majors| ==> majors[i].name != name
    ensures r.Some? ==> exists i :: 0 <= i < |majors| && majors[i].id == r.value && majors[i].name == name
  {
    var rows := MajorNames(majors);
    var r := IdByName(rows, name);
    assert forall i :: 0 <= i < |majors| ==> rows[i].name == majors[i].name;
    r
  }

  function MajorArgs(name: Value, department: Value): seq<Arg>
  {
    [("name", name), ("department", department)]
  }

  method UpdateMajor(majorId: Value, name: Value, department: Value, db: DbOutcome) returns (u: Update)
    ensures u.sent.None? <==> !Truthy(name) && !Truthy(department)
    ensures u.sent.None? ==> u.reply == Reply(false, "No fields to update.")
    ensures u.sent.Some? ==>
      var fragments := Fragment("name", name) + Fragment("department", department);
      && u.sent.value.table == "Majors"
      && u.sent.value.whereClause == "id = ?"
      && u.sent.value.setClause == Join(fragments)
      && Split(u.sent.value.setClause) == fragments
      && u.sent.value.params == Param(name) + Param(department) + [majorId]
    ensures u.sent.Some? && db.DbOk? ==> u.reply == Reply(true, "Major updated successfully.")
    ensures u.sent.Some? && db.DbError? ==>
      u.reply == Reply(false, "Error updating major: " + db.detail)
  {
    var args := MajorArgs(name, department);
    ConsArg("name", name, [("department", department)]);
    LastArg("department", department);
    assert args == [("name", name)] + [("department", department)];
    assert NoComma("name") && NoComma("department");
    IncludedEmpty(args);
    u := RunUpdate(MajorTable, args, [majorId], db);
    if u.sent.Some? {
      SetClauseSplits(args);
    }
  }

  /** The lookups of registration_tracker/app/unit_tests/test_majors_cont.py. */
  method LookupScenario()
  {
    var majors := [MajorRow(1, "Computer Science", "CCI")];
    assert GetMajorId(majors, "Computer Science") == Some(1);
    assert majors[0].name != "Nonexistent Major";
    assert GetMajorId(majors, "Nonexistent Major") == None;
  }

  /** Only the department given: one fragment, the id after its value. */
  method DepartmentOnlyScenario(majorId: int, department: string)
    requires department != ""
  {
    var u := UpdateMajor(Int(majorId), Null, Text(department), DbOk);
    assert u.sent.value.params == [Text(department), Int(majorId)];
    assert Split(u.sent.value.setClause) == [Assignment("department")];
  }
}
