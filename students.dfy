/** `update_student` (registration_tracker/app/controllers/students.py). */
module Students {
  import opened Values
  import opened SqlText
  import opened PartialUpdate

  const StudentTable: Entity := Entity("Students", "Student updated successfully.", "Error updating student: ", "id = ?")

  /** The optional arguments in the order the controller tests them; the
      `major_id` argument is written to the column `major`. */
  function StudentArgs(fName: Value, lName: Value, username: Value, password: Value,
                       majorId: Value, graduationDate: Value, advisorId: Value): seq<Arg>
  {
    [("f_name", fName), ("l_name", lName), ("username", username), ("password", password),
     ("major", majorId), ("graduation_date", graduationDate), ("advisor_id", advisorId)]
  }

  method UpdateStudent(studentId: Value, fName: Value, lName: Value, username: Value,
                       password: Value, majorId: Value, graduationDate: Value,
                       advisorId: Value, db: DbOutcome) returns (u: Update)
    ensures u.sent.None? <==>
      !Truthy(fName) && !Truthy(lName) && !Truthy(username) && !Truthy(password) &&
      !Truthy(majorId) && !Truthy(graduationDate) && !Truthy(advisorId)
    ensures u.sent.None? ==> u.reply == Reply(false, "No fields to update.")
    ensures u.sent.Some? ==>
      var fragments :=
        Fragment("f_name", fName) + (Fragment("l_name", lName) +
        (Fragment("username", username) + (Fragment("password", password) +
        (Fragment("major", majorId) + (Fragment("graduation_date", graduationDate) +
        Fragment("advisor_id", advisorId))))));
      && u.sent.value.table == "Students"
      && u.sent.value.whereClause == "id = ?"
      && u.sent.value.setClause == Join(fragments)
      && Split(u.sent.value.setClause) == fragments
      && u.sent.value.params ==
           Param(fName) + (Param(lName) + (Param(username) + (Param(password) +
           (Param(majorId) + (Param(graduationDate) + Param(advisorId)))))) + [studentId]
    ensures u.sent.Some? && db.DbOk? ==> u.reply == Reply(true, "Student updated successfully.")
    ensures u.sent.Some? && db.DbError? ==>
      u.reply == Reply(false, "Error updating student: " + db.detail)
  {
    var args := StudentArgs(fName, lName, username, password, majorId, graduationDate, advisorId);
    StudentFragments(fName, lName, username, password, majorId, graduationDate, advisorId);
    StudentColumns(fName, lName, username, password, majorId, graduationDate, advisorId);
    StudentNothingKept(fName, lName, username, password, majorId, graduationDate, advisorId);
    IncludedEmpty(args);
    u := RunUpdate(StudentTable, args, [studentId], db);
    if u.sent.Some? {
      SetClauseSplits(args);
    }
  }

  lemma StudentFragments(fName: Value, lName: Value, username: Value, password: Value,
                         majorId: Value, graduationDate: Value, advisorId: Value)
    ensures var args := StudentArgs(fName, lName, username, password, majorId, graduationDate, advisorId);
      && Assignments(Included(args)) ==
           Fragment("f_name", fName) + (Fragment("l_name", lName) +
           (Fragment("username", username) + (Fragment("password", password) +
           (Fragment("major", majorId) + (Fragment("graduation_date", graduationDate) +
           Fragment("advisor_id", advisorId))))))
      && Bindings(Included(args)) ==
           Param(fName) + (Param(lName) + (Param(username) + (Param(password) +
           (Param(majorId) + (Param(graduationDate) + Param(advisorId))))))
  {
    var a7 := [("advisor_id", advisorId)];
    var a6 := [("graduation_date", graduationDate)] + a7;
    var a5 := [("major", majorId)] + a6;
    var a4 := [("password", password)] + a5;
    var a3 := [("username", username)] + a4;
    var a2 := [("l_name", lName)] + a3;
    var a1 := [("f_name", fName)] + a2;
    assert a1 == StudentArgs(fName, lName, username, password, majorId, graduationDate, advisorId);
    LastArg("advisor_id", advisorId);
    ConsArg("graduation_date", graduationDate, a7);
    ConsArg("major", majorId, a6);
    ConsArg("password", password, a5);
    ConsArg("username", username, a4);
    ConsArg("l_name", lName, a3);
    ConsArg("f_name", fName, a2);
  }

  lemma StudentColumns(fName: Value, lName: Value, username: Value, password: Value,
                       majorId: Value, graduationDate: Value, advisorId: Value)
    ensures var args := StudentArgs(fName, lName, username, password, majorId, graduationDate, advisorId);
      forall k :: 0 <= k < |args| ==> NoComma(args[k].0)
  {
    assert NoComma("f_name") && NoComma("l_name") && NoComma("username") && NoComma("password");
    assert NoComma("major") && NoComma("graduation_date") && NoComma("advisor_id");
  }

  lemma StudentNothingKept(fName: Value, lName: Value, username: Value, password: Value,
                           majorId: Value, graduationDate: Value, advisorId: Value)
    ensures var args := StudentArgs(fName, lName, username, password, majorId, graduationDate, advisorId);
      Included(args) == [] <==>
        (!Truthy(fName) && !Truthy(lName) && !Truthy(username) && !Truthy(password) &&
         !Truthy(majorId) && !Truthy(graduationDate) && !Truthy(advisorId))
  {
    StudentFragments(fName, lName, username, password, majorId, graduationDate, advisorId);
    var args := StudentArgs(fName, lName, username, password, majorId, graduationDate, advisorId);
    assert |Assignments(Included(args))| == |Included(args)|;
  }

  /** Every field given, as in registration_tracker/app/unit_tests/test_students_cont.py:
      the update is sent and reported as a success. */
  method AllFieldsScenario(studentId: int, fName: string, lName: string, username: string, password: string,
                           majorId: int, graduationDate: string, advisorId: int)
    requires fName != "" && lName != "" && username != "" && password != ""
    requires majorId != 0 && graduationDate != "" && advisorId != 0
  {
    var u := UpdateStudent(Int(studentId), Text(fName), Text(lName), Text(username), Text(password),
                           Int(majorId), Text(graduationDate), Int(advisorId), DbOk);
    assert u.sent.Some?;
    assert u.reply == Reply(true, "Student updated successfully.");
  }

  /** Only the two names given: two fragments, the id third. */
  method SomeFieldsScenario(studentId: int, fName: string, lName: string)
    requires fName != "" && lName != ""
  {
    var u := UpdateStudent(Int(studentId), Text(fName), Text(lName), Null, Null, Null, Null, Null, DbOk);
    assert u.sent.value.params == [Text(fName), Text(lName), Int(studentId)];
    assert Split(u.sent.value.setClause) == [Assignment("f_name"), Assignment("l_name")];
  }

  /** No field given, or only falsy ones: refused, and no statement is sent. */
  method NoFieldsScenario(studentId: int, db: DbOutcome)
  {
    var u := UpdateStudent(Int(studentId), Null, Text(""), Null, Null, Int(0), Null, Null, db);
    assert u == Update(Reply(false, "No fields to update."), None);
  }
}
