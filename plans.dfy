/** `update_plan` (registration_tracker/app/controllers/plans.py). */
module Plans {
  import opened Values
  import opened SqlText
  import opened PartialUpdate

  const PlanTable: Entity := Entity("Plans", "Plan updated successfully.", "Error updating plan: ", "id = ?")

  function PlanArgs(name: Value, numSemesters: Value, studentId: Value, advisorId: Value): seq<Arg>
  {
    [("name", name), ("num_semesters", numSemesters), ("student_id", studentId), ("advisor_id", advisorId)]
  }

  method UpdatePlan(planId: Value, name: Value, numSemesters: Value, studentId: Value,
                    advisorId: Value, db: DbOutcome) returns (u: Update)
    ensures u.sent.None? <==>
      !Truthy(name) && !Truthy(numSemesters) && !Truthy(studentId) && !Truthy(advisorId)
    ensures u.sent.None? ==> u.reply == Reply(false, "No fields to update.")
    ensures u.sent.Some? ==>
      var fragments :=
        Fragment("name", name) + (Fragment("num_semesters", numSemesters) +
        (Fragment("student_id", studentId) + Fragment("advisor_id", advisorId)));
      && u.sent.value.table == "Plans"
      && u.sent.value.whereClause == "id = ?"
      && u.sent.value.setClause == Join(fragments)
      && Split(u.sent.value.setClause) == fragments
      && u.sent.value.params ==
           Param(name) + (Param(numSemesters) + (Param(studentId) + Param(advisorId))) + [planId]
    ensures u.sent.Some? && db.DbOk? ==> u.reply == Reply(true, "Plan updated successfully.")
    ensures u.sent.Some? && db.DbError? ==>
      u.reply == Reply(false, "Error updating plan: " + db.detail)
  {
    var args := PlanArgs(name, numSemesters, studentId, advisorId);
    PlanFragments(name, numSemesters, studentId, advisorId);
    PlanColumns(name, numSemesters, studentId, advisorId);
    PlanNothingKept(name, numSemesters, studentId, advisorId);
    IncludedEmpty(args);
    u := RunUpdate(PlanTable, args, [planId], db);
    if u.sent.Some? {
      SetClauseSplits(args);
    }
  }

  lemma PlanFragments(name: Value, numSemesters: Value, studentId: Value, advisorId: Value)
    ensures var args := PlanArgs(name, numSemesters, studentId, advisorId);
      && Assignments(Included(args)) ==
           Fragment("name", name) + (Fragment("num_semesters", numSemesters) +
           (Fragment("student_id", studentId) + Fragment("advisor_id", advisorId)))
      && Bindings(Included(args)) ==
           Param(name) + (Param(numSemesters) + (Param(studentId) + Param(advisorId)))
  {
    var a4 := [("advisor_id", advisorId)];
    var a3 := [("student_id", studentId)] + a4;
    var a2 := [("num_semesters", numSemesters)] + a3;
    assert PlanArgs(name, numSemesters, studentId, advisorId) == [("name", name)] + a2;
    LastArg("advisor_id", advisorId);
    ConsArg("student_id", studentId, a4);
    ConsArg("num_semesters", numSemesters, a3);
    ConsArg("name", name, a2);
  }

  lemma PlanColumns(name: Value, numSemesters: Value, studentId: Value, advisorId: Value)
    ensures var args := PlanArgs(name, numSemesters, studentId, advisorId);
      forall k :: 0 <= k < |args| ==> NoComma(args[k].0)
  {
    assert NoComma("name") && NoComma("num_semesters") && NoComma("student_id") && NoComma("advisor_id");
  }

  lemma PlanNothingKept(name: Value, numSemesters: Value, studentId: Value, advisorId: Value)
    ensures Included(PlanArgs(name, numSemesters, studentId, advisorId)) == [] <==>
      (!Truthy(name) && !Truthy(numSemesters) && !Truthy(studentId) && !Truthy(advisorId))
  {
    PlanFragments(name, numSemesters, studentId, advisorId);
    var args := PlanArgs(name, numSemesters, studentId, advisorId);
    assert |Assignments(Included(args))| == |Included(args)|;
  }

  /** Only the name, as in registration_tracker/app/unit_tests/test_plans_cont.py:
      one fragment, two parameters. */
  method NameOnlyScenario(planId: int, name: string)
    requires name != ""
  {
    var u := UpdatePlan(Int(planId), Text(name), Null, Null, Null, DbOk);
    assert u.sent.value.params == [Text(name), Int(planId)];
    assert Split(u.sent.value.setClause) == [Assignment("name")];
    assert u.reply == Reply(true, "Plan updated successfully.");
  }

  /** A semester count of zero is not given, so with nothing else it is refused. */
  method ZeroSemestersScenario(planId: int, db: DbOutcome)
  {
    var u := UpdatePlan(Int(planId), Null, Int(0), Null, Null, db);
    assert u == Update(Reply(false, "No fields to update."), None);
  }
}
