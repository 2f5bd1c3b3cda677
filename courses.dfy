/** `update_course` (registration_tracker/app/controllers/courses.py): the
    course key is the pair (subject, number), bound after the field values. */
module Courses {
  import opened Values
  import opened SqlText
  import opened PartialUpdate

  const CourseTable: Entity :=
    Entity("Courses", "Course updated successfully.", "Error updating course: ", "subject = ? AND number = ?")

  function CourseArgs(name: Value, credits: Value): seq<Arg>
  {
    [("name", name), ("credits", credits)]
  }

  method UpdateCourse(subject: Value, number: Value, name: Value, credits: Value, db: DbOutcome)
    returns (u: Update)
    ensures u.sent.None? <==> !Truthy(name) && !Truthy(credits)
    ensures u.sent.None? ==> u.reply == Reply(false, "No fields to update.")
    ensures u.sent.Some? ==>
      var fragments := Fragment("name", name) + Fragment("credits", credits);
      && u.sent.value.table == "Courses"
      && u.sent.value.whereClause == "subject = ? AND number = ?"
      && u.sent.value.setClause == Join(fragments)
      && Split(u.sent.value.setClause) == fragments
      && u.sent.value.params == Param(name) + Param(credits) + [subject, number]
    ensures u.sent.Some? && db.DbOk? ==> u.reply == Reply(true, "Course updated successfully.")
    ensures u.sent.Some? && db.DbError? ==>
      u.reply == Reply(false, "Error updating course: " + db.detail)
  {
    var args := CourseArgs(name, credits);
    ConsArg("name", name, [("credits", credits)]);
    LastArg("credits", credits);
    assert args == [("name", name)] + [("credits", credits)];
    assert NoComma("name") && NoComma("credits");
    IncludedEmpty(args);
    u := RunUpdate(CourseTable, args, [subject, number], db);
    if u.sent.Some? {
      SetClauseSplits(args);
    }
  }

  /** Both fields, as in registration_tracker/app/unit_tests/test_courses_cont.py:
      the key `subject, number` after the two values. */
  method BothFieldsScenario(subject: string, number: int, name: string, credits: int)
    requires name != "" && credits != 0
  {
    var u := UpdateCourse(Text(subject), Int(number), Text(name), Int(credits), DbOk);
    assert u.sent.value.params == [Text(name), Int(credits), Text(subject), Int(number)];
    assert Split(u.sent.value.setClause) == [Assignment("name"), Assignment("credits")];
    assert u.reply == Reply(true, "Course updated successfully.");
  }

  /** Only the credits: the key still follows the one field value. */
  method CreditsOnlyScenario(subject: string, number: int, credits: int, detail: string)
    requires credits != 0
  {
    var u := UpdateCourse(Text(subject), Int(number), Null, Int(credits), DbError(detail));
    assert u.sent.value.params == [Int(credits), Text(subject), Int(number)];
    assert Split(u.sent.value.setClause) == [Assignment("credits")];
    assert !u.reply.success;
  }

  /** An empty name and zero credits count as not given. */
  method FalsyFieldsScenario(subject: string, number: int, db: DbOutcome)
  {
    var u := UpdateCourse(Text(subject), Int(number), Text(""), Int(0), db);
    assert u == Update(Reply(false, "No fields to update."), None);
  }
}
