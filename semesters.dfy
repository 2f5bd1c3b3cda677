/** `update_semester` and the result order of `get_semesters`
    (registration_tracker/app/controllers/semesters.py). */
module Semesters {
  import opened Values
  import opened SqlText
  import opened PartialUpdate
  import opened SemesterOrder

  const SemesterTable: Entity :=
    Entity("Semesters", "Semester updated successfully.", "Error updating semester: ", "id = ?")

  function SemesterArgs(term: Value, year: Value): seq<Arg>
  {
    [("term", term), ("year", year)]
  }

  method UpdateSemester(semesterId: Value, term: Value, year: Value, db: DbOutcome) returns (u: Update)
    ensures u.sent.None? <==> !Truthy(term) && !Truthy(year)
    ensures u.sent.None? ==> u.reply == Reply(false, "No fields to update.")
    ensures u.sent.Some? ==>
      var fragments := Fragment("term", term) + Fragment("year", year);
      && u.sent.value.table == "Semesters"
      && u.sent.value.whereClause == "id = ?"
      && u.sent.value.setClause == Join(fragments)
      && Split(u.sent.value.setClause) == fragments
      && u.sent.value.params == Param(term) + Param(year) + [semesterId]
    ensures u.sent.Some? && db.DbOk? ==> u.reply == Reply(true, "Semester updated successfully.")
    ensures u.sent.Some? && db.DbError? ==>
      u.reply == Reply(false, "Error updating semester: " + db.detail)
  {
    var args := SemesterArgs(term, year);
    ConsArg("term", term, [("year", year)]);
    LastArg("year", year);
    assert args == [("term", term)] + [("year", year)];
    assert NoComma("term") && NoComma("year");
    IncludedEmpty(args);
    u := RunUpdate(SemesterTable, args, [semesterId], db);
    if u.sent.Some? {
      SetClauseSplits(args);
    }
  }

  /** The semesters whose id the plan links to, in table order. */
  function InPlan(table: seq<SemesterRow>, linked: set<int>): (r: seq<SemesterRow>)
    ensures forall s :: s in r <==> s in table && s.id in linked
  {
    if table == [] then []
    else (if table[0].id in linked then [table[0]] else []) + InPlan(table[1..], linked)
  }

  /** What `get_semesters(plan_id)` may return: the plan's semesters, each
      once, in the order of the two-term ORDER BY. `linked` is the set of
      semester ids that Plan_Semesters records for the plan. */
  predicate GetSemestersResult(table: seq<SemesterRow>, linked: set<int>, result: seq<SemesterRow>)
  {
    multiset(result) == multiset(InPlan(table, linked)) && Chronological(SpringFall, result)
  }

  /** Any two answers agree on the year and term at every position when the
      plan's terms are all Spring or Fall: ORDER BY leaves only rows with equal
      (year, term) free to change places. */
  lemma GetSemestersDeterminate(table: seq<SemesterRow>, linked: set<int>, a: seq<SemesterRow>, b: seq<SemesterRow>)
    requires GetSemestersResult(table, linked, a) && GetSemestersResult(table, linked, b)
    requires forall s :: s in table && s.id in linked ==> s.term == "Spring" || s.term == "Fall"
    ensures |a| == |b|
    ensures forall i :: 0 <= i < |a| ==> a[i].term == b[i].term && a[i].year == b[i].year
  {
    forall i | 0 <= i < |a|
      ensures Rank(SpringFall, a[i].term).Some?
    {
      assert a[i] in multiset(InPlan(table, linked));
    }
    OrderDeterminesTerms(SpringFall, a, b);
  }

  /** In an answer, a semester of an earlier year never follows one of a later
      year, and within a year a Fall never precedes a Spring. */
  lemma GetSemestersOrdered(table: seq<SemesterRow>, linked: set<int>, result: seq<SemesterRow>, i: nat, j: nat)
    requires GetSemestersResult(table, linked, result)
    requires i < j < |result|
    ensures result[i].year <= result[j].year
    ensures result[i].year == result[j].year && result[i].term == "Fall" ==> result[j].term != "Spring"
  {
    assert KeyLe(Key(SpringFall, result[i]), Key(SpringFall, result[j]));
  }

  /** Both fields, as in registration_tracker/app/unit_tests/test_semesters_cont.py. */
  method BothFieldsScenario(semesterId: int, term: string, year: int)
    requires term != "" && year != 0
  {
    var u := UpdateSemester(Int(semesterId), Text(term), Int(year), DbOk);
    assert u.sent.value.params == [Text(term), Int(year), Int(semesterId)];
    assert Split(u.sent.value.setClause) == [Assignment("term"), Assignment("year")];
    assert u.reply == Reply(true, "Semester updated successfully.");
  }

  /** Year 0 counts as not given: only the term is written. */
  method ZeroYearScenario(semesterId: int, term: string)
    requires term != ""
  {
    var u := UpdateSemester(Int(semesterId), Text(term), Int(0), DbOk);
    assert u.sent.value.params == [Text(term), Int(semesterId)];
    assert Split(u.sent.value.setClause) == [Assignment("term")];
  }

  /** An empty term and no year: refused. */
  method EmptyTermScenario(semesterId: int, db: DbOutcome)
  {
    var u := UpdateSemester(Int(semesterId), Text(""), Null, db);
    assert u == Update(Reply(false, "No fields to update."), None);
  }
}
