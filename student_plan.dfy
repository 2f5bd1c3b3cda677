/** `get_student_plan` (registration_tracker/app/app_utils.py): fetch the
    student's plan row, then the plan's semesters in the three-term ORDER BY
    order, then each semester's courses ordered by (subject, number), and
    shape the rows into nested plan data. The three queries are parameters:
    `planOf` is the plan query's `fetchone()`, `semestersOf` and `coursesOf`
    the other two queries' `fetchall()`. */
module StudentPlan {
  import opened Values
  import opened SemesterOrder

  /** The plan query's row: the plan and its advisor's name. */
  datatype PlanRow = PlanRow(id: int, name: string, numSemesters: int, advisorName: string)

  /** The course query's row. */
  datatype CourseRow = CourseRow(subject: string, number: int, name: string, credits: int)

  /** The `{'subject', 'number', 'name', 'credits'}` dictionary of one course. */
  datatype CourseEntry = CourseEntry(subject: string, number: int, name: string, credits: int)

  /** The `{'id', 'term', 'year', 'courses'}` dictionary of one semester. */
  datatype SemesterEntry = SemesterEntry(id: int, term: string, year: int, courses: seq<CourseEntry>)

  /** The `plan_data` dictionary the function returns. */
  datatype PlanData = PlanData(id: int, name: string, numSemesters: int, advisorName: string,
                               semesters: seq<SemesterEntry>)

  function CourseEntryOf(c: CourseRow): CourseEntry
  {
    CourseEntry(c.subject, c.number, c.name, c.credits)
  }

  function CourseEntries(courses: seq<CourseRow>): seq<CourseEntry>
  {
    seq(|courses|, k requires 0 <= k < |courses| => CourseEntryOf(courses[k]))
  }

  function SemesterEntryOf(s: SemesterRow, courses: seq<CourseRow>): SemesterEntry
  {
    SemesterEntry(s.id, s.term, s.year, CourseEntries(courses))
  }

  /** The plan data made from a plan row, its semester rows and, per
      semester, its course rows. */
  function Shape(p: PlanRow, semesters: seq<SemesterRow>, coursesOf: int -> seq<CourseRow>): PlanData
  {
    PlanData(p.id, p.name, p.numSemesters, p.advisorName,
             seq(|semesters|, i requires 0 <= i < |semesters| =>
               SemesterEntryOf(semesters[i], coursesOf(semesters[i].id))))
  }

  /** Lines 23-91: no plan row gives None; otherwise one semester entry per
      fetched semester row and one course entry per fetched course row, each in
      fetch order. */
  method GetStudentPlan(studentId: int, planOf: int -> Option<PlanRow>,
                        semestersOf: int -> seq<SemesterRow>, coursesOf: int -> seq<CourseRow>)
    returns (r: Option<PlanData>)
    ensures r.None? <==> planOf(studentId).None?
    ensures r.Some? ==>
      var p := planOf(studentId).value;
      r.value == Shape(p, semestersOf(p.id), coursesOf)
  {
    var plan := planOf(studentId);
    if plan.None? {
      return None;
    }
    var p := plan.value;
    var semesters := semestersOf(p.id);
    var entries: seq<SemesterEntry> := [];
    for i := 0 to |semesters|
      invariant |entries| == i
      invariant forall k :: 0 <= k < i ==> entries[k] == SemesterEntryOf(semesters[k], coursesOf(semesters[k].id))
    {
      var semester := semesters[i];
      var courses := coursesOf(semester.id);
      var list: seq<CourseEntry> := [];
      for j := 0 to |courses|
        invariant |list| == j
        invariant forall k :: 0 <= k < j ==> list[k] == CourseEntryOf(courses[k])
      {
        list := list + [CourseEntry(courses[j].subject, courses[j].number, courses[j].name, courses[j].credits)];
      }
      assert list == CourseEntries(courses);
      entries := entries + [SemesterEntry(semester.id, semester.term, semester.year, list)];
    }
    r := Some(PlanData(p.id, p.name, p.numSemesters, p.advisorName, entries));
    assert r.value == Shape(p, semesters, coursesOf);
  }

  /** The semester row an entry was made from. */
  function SemesterRowOf(e: SemesterEntry): SemesterRow
  {
    SemesterRow(e.id, e.term, e.year)
  }

  function SemesterRows(entries: seq<SemesterEntry>): seq<SemesterRow>
  {
    seq(|entries|, i requires 0 <= i < |entries| => SemesterRowOf(entries[i]))
  }

  /** The course row an entry was made from. */
  function CourseRowOf(e: CourseEntry): CourseRow
  {
    CourseRow(e.subject, e.number, e.name, e.credits)
  }

  function CourseRows(entries: seq<CourseEntry>): seq<CourseRow>
  {
    seq(|entries|, k requires 0 <= k < |entries| => CourseRowOf(entries[k]))
  }

  /** Shaping loses and invents nothing: the header is the plan row's, and the
      entries give back exactly the fetched semester rows and, per semester,
      exactly its fetched course rows, in order. */
  lemma ShapeIsFaithful(p: PlanRow, semesters: seq<SemesterRow>, coursesOf: int -> seq<CourseRow>)
    ensures var d := Shape(p, semesters, coursesOf);
      && d.id == p.id && d.name == p.name && d.numSemesters == p.numSemesters
      && d.advisorName == p.advisorName
      && SemesterRows(d.semesters) == semesters
      && forall i :: 0 <= i < |semesters| ==>
           CourseRows(d.semesters[i].courses) == coursesOf(semesters[i].id)
  {
    var d := Shape(p, semesters, coursesOf);
    forall i | 0 <= i < |semesters|
      ensures CourseRows(d.semesters[i].courses) == coursesOf(semesters[i].id)
    {
      var cs := coursesOf(semesters[i].id);
      assert d.semesters[i].courses == CourseEntries(cs);
      assert forall k :: 0 <= k < |cs| ==> CourseRows(CourseEntries(cs))[k] == cs[k];
    }
  }

  /** Semesters fetched in the three-term order stay in that order in the plan data. */
  lemma ShapeKeepsSemesterOrder(p: PlanRow, semesters: seq<SemesterRow>, coursesOf: int -> seq<CourseRow>)
    requires Chronological(SpringSummerFall, semesters)
    ensures Chronological(SpringSummerFall, SemesterRows(Shape(p, semesters, coursesOf).semesters))
  {
    ShapeIsFaithful(p, semesters, coursesOf);
  }

  /** SQLite's BINARY collation on text: compare character by character, a
      proper prefix first. */
  predicate TextLe(a: string, b: string)
  {
    if a == [] then true
    else if b == [] then false
    else if a[0] != b[0] then a[0] < b[0]
    else TextLe(a[1..], b[1..])
  }

  /** The text order is a total order (total, antisymmetric, transitive), so
      ORDER BY subject is well defined. */
  lemma {:induction false} TextOrderIsTotal(a: string, b: string, c: string)
    ensures TextLe(a, b) || TextLe(b, a)
    ensures TextLe(a, b) && TextLe(b, a) ==> a == b
    ensures TextLe(a, b) && TextLe(b, c) ==> TextLe(a, c)
  {
    if a != [] && b != [] && c != [] {
      TextOrderIsTotal(a[1..], b[1..], c[1..]);
      assert a == [a[0]] + a[1..] && b == [b[0]] + b[1..];
    } else if a != [] && b != [] {
      TextOrderIsTotal(a[1..], b[1..], []);
      assert a == [a[0]] + a[1..] && b == [b[0]] + b[1..];
    }
  }

  /** `ORDER BY c.subject, c.number`. */
  predicate CourseLe(subjectA: string, numberA: int, subjectB: string, numberB: int)
  {
    (TextLe(subjectA, subjectB) && subjectA != subjectB) || (subjectA == subjectB && numberA <= numberB)
  }

  /** The (subject, number) order is a total order on course keys. */
  lemma CourseOrderIsTotal(s1: string, n1: int, s2: string, n2: int, s3: string, n3: int)
    ensures CourseLe(s1, n1, s2, n2) || CourseLe(s2, n2, s1, n1)
    ensures CourseLe(s1, n1, s2, n2) && CourseLe(s2, n2, s1, n1) ==> s1 == s2 && n1 == n2
    ensures CourseLe(s1, n1, s2, n2) && CourseLe(s2, n2, s3, n3) ==> CourseLe(s1, n1, s3, n3)
  {
    TextOrderIsTotal(s1, s2, s3);
    TextOrderIsTotal(s2, s3, s1);
    TextOrderIsTotal(s1, s3, s2);
    TextOrderIsTotal(s3, s1, s2);
  }

  predicate CourseRowsOrdered(courses: seq<CourseRow>)
  {
    forall i, j :: 0 <= i < j < |courses| ==>
      CourseLe(courses[i].subject, courses[i].number, courses[j].subject, courses[j].number)
  }

  predicate CourseEntriesOrdered(entries: seq<CourseEntry>)
  {
    forall i, j :: 0 <= i < j < |entries| ==>
      CourseLe(entries[i].subject, entries[i].number, entries[j].subject, entries[j].number)
  }

  /** Courses fetched in (subject, number) order stay in that order in every
      semester entry. */
  lemma ShapeKeepsCourseOrder(p: PlanRow, semesters: seq<SemesterRow>, coursesOf: int -> seq<CourseRow>)
    requires forall i :: 0 <= i < |semesters| ==> CourseRowsOrdered(coursesOf(semesters[i].id))
    ensures var d := Shape(p, semesters, coursesOf);
      forall i :: 0 <= i < |d.semesters| ==> CourseEntriesOrdered(d.semesters[i].courses)
  {
    var d := Shape(p, semesters, coursesOf);
    forall i | 0 <= i < |d.semesters|
      ensures CourseEntriesOrdered(d.semesters[i].courses)
    {
      var cs := coursesOf(semesters[i].id);
      assert d.semesters[i].courses == CourseEntries(cs);
      assert CourseRowsOrdered(cs);
    }
  }

  /** A student without a plan, and a plan with one Fall and one Spring
      semester of which the Spring holds two courses. */
  method PlanScenario()
  {
    var none := GetStudentPlan(7, _ => None, _ => [], _ => []);
    assert none == None;
    var p := PlanRow(1, "Plan A", 8, "Dr. Smith");
    var sems := [SemesterRow(10, "Spring", 2025), SemesterRow(11, "Fall", 2025)];
    var spring := [CourseRow("ITSC", 1212, "Intro", 4), CourseRow("MATH", 1241, "Calculus I", 3)];
    var r := GetStudentPlan(1600343, _ => Some(p), id => if id == 1 then sems else [],
                            id => if id == 10 then spring else []);
    assert r.value.advisorName == "Dr. Smith";
    assert |r.value.semesters| == 2;
    assert r.value.semesters[0] == SemesterEntryOf(sems[0], spring);
    assert r.value.semesters[1] == SemesterEntryOf(sems[1], []);
    assert r.value.semesters[0].courses == [CourseEntry("ITSC", 1212, "Intro", 4), CourseEntry("MATH", 1241, "Calculus I", 3)];
    assert r.value.semesters[1].courses == [];
  }
}
