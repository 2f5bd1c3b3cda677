# Registration tracker core, modelled in Dafny

The registration tracker is a Streamlit and SQLite application in which
students, advisors and administrators manage degree plans. This project
models its small, self-contained core:

- **Partial updates.** Six controllers repeat one algorithm:
  `update_student`, `update_course`, `update_plan`,
  `update_concentration`, `update_semester` and `update_major`. Each walks
  its optional arguments in a fixed order. Every *truthy* argument adds a
  `col = ?` fragment and its value. When no fragment is added, the call
  answers "No fields to update." and opens no connection. Otherwise it joins
  the fragments with `", "` into the SET clause, binds the key value(s) after
  the field values and turns the database's outcome into a
  `{success, message}` reply. `PartialUpdate.BuildSet` is that loop, written
  once over an ordered `(column, value)` list. Each controller module
  instantiates it with its own columns, key and messages.
- **Chronological order of semesters.** This is `ORDER BY year, CASE term …
  END`, in its two forms:
  - `get_semesters` ranks Spring before Fall;
  - `get_student_plan` ranks Spring, Summer, Fall.

  Neither CASE has an ELSE, so any other term ranks NULL. SQLite sorts NULL
  first.
- **The role gate `check_auth`.** It takes a session (user name and role)
  and the page's required role or roles.
- **Name-to-id lookups.** These are `get_major_id` and
  `get_concentration_id`.
- **Shaping in `get_student_plan`.** It turns the plan row, the semester rows
  and each semester's course rows into nested plan data.

Python truthiness is `Values.Truthy` over `Value = Null | Text | Int`, so
`None`, `""` and `0` are falsy. The database is a parameter in every case:
- the outcome of `execute` plus `commit` is `DbOutcome = DbOk | DbError(detail)`;
- the rows a read returns are a sequence, or a function of the query's
  bound parameter.

"No connection opened" is an `Update` whose `sent` is `None`.

The modules follow the repository's files:

| file | module | models |
|---|---|---|
| values.dfy | `Values` | argument values and truthiness |
| sql_text.dfy | `SqlText` | `', '.join` and its inverse split |
| partial_update.dfy | `PartialUpdate` | the shared builder and its outcome reply |
| students.dfy, courses.dfy, plans.dfy | `Students`, `Courses`, `Plans` | the three `update_*` controllers |
| concentrations.dfy, majors.dfy | `Concentrations`, `Majors` | the update controllers and the id lookups |
| semesters.dfy | `Semesters` | `update_semester` and what `get_semesters` may return |
| lookup.dfy | `Lookup` | the shared `fetchone()` / `row['id'] if row else None` lookup |
| semester_order.dfy | `SemesterOrder` | the two ORDER BY keys |
| auth.dfy | `Auth` | `check_auth` |
| student_plan.dfy | `StudentPlan` | `get_student_plan` |

## Model

| member | source | states |
|---|---|---|
| SqlText.Join | registration_tracker/app/controllers/students.py:93 | definition: `', '.join`, the elements in order with one separator between neighbours; JoinShape and SplitJoin state its properties |
| SqlText.JoinShape | registration_tracker/app/controllers/students.py:93 | a non-empty join holds all the fragments' characters plus two for each separator between neighbouring fragments, starts with the first fragment and ends with the last |
| SqlText.SplitAfter | registration_tracker/app/controllers/students.py:93 | a comma-free fragment followed by `", "` splits off as the first piece |
| SqlText.SplitJoin | registration_tracker/app/controllers/students.py:92-94 | splitting the joined SET clause at each `", "` gives back exactly the fragments when none holds a comma |
| PartialUpdate.Included | registration_tracker/app/controllers/students.py:67-87 | definition: the arguments whose `if x:` test passes, in argument order; its properties are IncludedConcat, IncludedEmpty, IncludedSound, IncludedPosition and IncludedOrder |
| PartialUpdate.Outcome | registration_tracker/app/controllers/students.py:98-103 | definition: a committed statement answers the success text, a database error the error prefix followed by the error's text; RunUpdate states it for every update |
| PartialUpdate.IncludedConcat | registration_tracker/app/controllers/students.py:67-87 | the arguments kept from a concatenation are those kept from each part, in order |
| PartialUpdate.IncludedEmpty | registration_tracker/app/controllers/students.py:89-90 | nothing is kept exactly when every argument is falsy |
| PartialUpdate.IncludedSound | registration_tracker/app/controllers/students.py:67-87 | every kept argument is one of the arguments and is truthy |
| PartialUpdate.IncludedPosition | registration_tracker/app/controllers/students.py:67-87 | every truthy argument is kept, right after those kept from the arguments before it |
| PartialUpdate.IncludedOrder | registration_tracker/app/controllers/students.py:67-87 | kept arguments keep their relative order |
| PartialUpdate.Parallel | registration_tracker/app/controllers/students.py:67-95 | fragments and parameters run one for one: position p binds the value of the column fragment p names |
| PartialUpdate.ConsArg | registration_tracker/app/controllers/students.py:67-69 | the first argument contributes its fragment and value in front of the rest's, or nothing when falsy |
| PartialUpdate.LastArg | registration_tracker/app/controllers/students.py:86-87 | a lone argument contributes exactly its own fragment and value |
| PartialUpdate.SetClauseSplits | registration_tracker/app/controllers/students.py:92-94 | with comma-free column names the SET clause splits back into exactly the kept fragments |
| PartialUpdate.BuildSet | registration_tracker/app/controllers/students.py:64-95 | refuses exactly when every argument is falsy; otherwise the SET clause joins the kept arguments' fragments and the parameters are their values followed by the keys |
| PartialUpdate.RunUpdate | registration_tracker/app/controllers/students.py:60-105 | sends nothing and answers "No fields to update." exactly when every argument is falsy; otherwise sends `UPDATE table SET … WHERE key` with the values then the keys, and answers with the entity's success text or its error prefix plus the database's message |
| Students.UpdateStudent | registration_tracker/app/controllers/students.py:60-105 | no statement exactly when all seven fields are falsy; fragments in the order f_name, l_name, username, password, major, graduation_date, advisor_id, each only when truthy; `major_id` written to column `major`; values parallel, `student_id` last; the two reply texts |
| Students.StudentFragments | registration_tracker/app/controllers/students.py:66-87 | the seven arguments give exactly the fragments and values of the truthy ones, in the controller's order |
| Students.StudentNothingKept | registration_tracker/app/controllers/students.py:89-90 | no argument of the seven is kept exactly when all are falsy |
| Plans.PlanFragments | registration_tracker/app/controllers/plans.py:73-85 | the four arguments give exactly the fragments and values of the truthy ones, in the order name, num_semesters, student_id, advisor_id |
| Plans.PlanNothingKept | registration_tracker/app/controllers/plans.py:87-88 | no argument of the four is kept exactly when all are falsy |
| Courses.UpdateCourse | registration_tracker/app/controllers/courses.py:64-91 | no statement exactly when name and credits are both falsy (an empty name and 0 credits count as absent); fragments name then credits; `subject`, `number` bound after the values; the two reply texts |
| Plans.UpdatePlan | registration_tracker/app/controllers/plans.py:70-103 | no statement exactly when the four fields are falsy (0 semesters counts as absent); fragments name, num_semesters, student_id, advisor_id; `plan_id` last; the two reply texts |
| Concentrations.UpdateConcentration | registration_tracker/app/controllers/concentration.py:63-93 | no statement exactly when name and major_id are falsy; fragments name then major_id; `concentration_id` last; the two reply texts |
| Semesters.UpdateSemester | registration_tracker/app/controllers/semesters.py:63-93 | no statement exactly when term and year are falsy (an empty term and year 0 count as absent); fragments term then year; `id` last; the two reply texts |
| Majors.UpdateMajor | registration_tracker/app/controllers/majors.py:52-82 | no statement exactly when name and department are falsy; fragments name then department; `major_id` last; the two reply texts |
| Lookup.FetchByName | registration_tracker/app/controllers/majors.py:17-19 | None exactly when no row has the name; otherwise a row of the table with that name |
| Lookup.IdByName | registration_tracker/app/controllers/majors.py:17-21 | None exactly when no row has the name; otherwise the id of a row with that name |
| Majors.GetMajorId | registration_tracker/app/controllers/majors.py:12-21 | None exactly when no major has the name; otherwise the id of a major with that name |
| Concentrations.GetConcentrationId | registration_tracker/app/controllers/concentration.py:22-31 | None exactly when no concentration has the name; otherwise the id of a concentration with that name |
| SemesterOrder.Rank | registration_tracker/app/controllers/semesters.py:28-31 | definition: the CASE rank of a term, NULL for a term the CASE does not list, for the two-term CASE and the three-term one of registration_tracker/app/app_utils.py:46-50; its properties are TermsWithinYear, SummerUnderSpringFall and RankInjective |
| SemesterOrder.Key | registration_tracker/app/controllers/semesters.py:27-31 | definition: the ORDER BY key (year, rank) of a row; YearDecides and TermsWithinYear state how it orders rows |
| SemesterOrder.RankLe | registration_tracker/app/controllers/semesters.py:28-31 | definition: SQLite's ascending order on a nullable rank, NULL first; part of the total order of KeyOrderIsTotal |
| SemesterOrder.KeyLe | registration_tracker/app/controllers/semesters.py:27-31 | definition: year first, then rank; KeyOrderIsTotal proves it a total order |
| SemesterOrder.Chronological | registration_tracker/app/controllers/semesters.py:27-31 | definition: a result is in ORDER BY order when every row's key is at most every later row's; StepwiseIsChronological, OrderDeterminesKeys and OrderDeterminesTerms state its properties |
| SemesterOrder.KeyOrderIsTotal | registration_tracker/app/controllers/semesters.py:27-31 | the (year, rank) order with NULL ranks first is reflexive, antisymmetric, transitive and total |
| SemesterOrder.YearDecides | registration_tracker/app/controllers/semesters.py:27 | an earlier year comes strictly first, whatever the terms |
| SemesterOrder.TermsWithinYear | registration_tracker/app/app_utils.py:45-50 | within a year Spring comes strictly before Fall under both CASE expressions, and Spring < Summer < Fall under the three-term one |
| SemesterOrder.SummerUnderSpringFall | registration_tracker/app/controllers/semesters.py:28-31 | the two-term CASE gives Summer NULL, which sorts a Summer strictly before the Spring of its year |
| SemesterOrder.RankInjective | registration_tracker/app/app_utils.py:46-50 | a non-NULL rank names exactly one term |
| SemesterOrder.CalendarsAgree | registration_tracker/app/app_utils.py:45-50 | on Spring and Fall semesters the two CASE expressions give the same order |
| SemesterOrder.StepwiseIsChronological | registration_tracker/app/controllers/semesters.py:27-31 | rows whose neighbours are in key order are in ORDER BY order |
| SemesterOrder.SortedKeysUnique | registration_tracker/app/controllers/semesters.py:27-31 | two key-sorted sequences holding the same keys are equal |
| SemesterOrder.KeysOfPermutation | registration_tracker/app/controllers/semesters.py:27-31 | rearranging rows rearranges their keys |
| SemesterOrder.OrderDeterminesKeys | registration_tracker/app/controllers/semesters.py:27-31 | two ORDER BY results over the same rows have the same key at every position |
| SemesterOrder.OrderDeterminesTerms | registration_tracker/app/app_utils.py:45-50 | when every term is ranked, two such results agree on term and year at every position |
| Semesters.InPlan | registration_tracker/app/controllers/semesters.py:23-26 | a semester is selected exactly when it is in the table and the plan links its id |
| Semesters.GetSemestersResult | registration_tracker/app/controllers/semesters.py:22-35 | definition: an answer of `get_semesters` holds the plan's semesters, each once, in two-term ORDER BY order; GetSemestersDeterminate and GetSemestersOrdered state its properties |
| Semesters.GetSemestersDeterminate | registration_tracker/app/controllers/semesters.py:22-35 | every answer of `get_semesters` over Spring and Fall semesters has the same term and year at every position |
| Semesters.GetSemestersOrdered | registration_tracker/app/controllers/semesters.py:27-31 | in an answer a later position is never an earlier year, and within a year a Fall is never followed by a Spring |
| Auth.RoleList | registration_tracker/app/auth_utils.py:18-19 | definition: a single role becomes the one-element list, a list stays as it is; SingleRoleIsList states the consequence |
| Auth.CheckAuth | registration_tracker/app/auth_utils.py:7-30 | admits exactly when the user name is present and non-empty, the role is present and non-empty, and the role is one of the required roles |
| Auth.SingleRoleIsList | registration_tracker/app/auth_utils.py:18-19 | one required role admits exactly the sessions the one-element list admits |
| Auth.NoUserDenied | registration_tracker/app/auth_utils.py:22-23 | a missing or empty user name is refused |
| Auth.NoRoleDenied | registration_tracker/app/auth_utils.py:26-27 | a missing or empty role is refused |
| Auth.AdmittedByRole | registration_tracker/app/auth_utils.py:30 | a logged-in user with a role is admitted exactly when that role is listed |
| Auth.MoreRolesAdmitMore | registration_tracker/app/auth_utils.py:30 | listing more roles never turns an admission into a refusal |
| Auth.EmptyListDenies | registration_tracker/app/auth_utils.py:30 | an empty role list admits nobody |
| StudentPlan.GetStudentPlan | registration_tracker/app/app_utils.py:23-91 | None exactly when the plan query (the student's plans joined with their advisor) returns no row; otherwise the plan data shaped from the plan row, its semester rows and their course rows |
| StudentPlan.Shape | registration_tracker/app/app_utils.py:55-88 | definition: the plan data the nested `append` loops build, one semester entry per semester row and one course entry per course row; GetStudentPlan's loops are proved to compute it, and ShapeIsFaithful, ShapeKeepsSemesterOrder and ShapeKeepsCourseOrder state its properties |
| StudentPlan.ShapeIsFaithful | registration_tracker/app/app_utils.py:55-88 | the header copies id, name, num_semesters and advisor_name; the semester entries give back exactly the fetched semester rows in order; each semester's course entries give back exactly its fetched course rows in order |
| StudentPlan.ShapeKeepsSemesterOrder | registration_tracker/app/app_utils.py:45-52 | semesters fetched in the three-term order stay in that order in the plan data |
| StudentPlan.TextLe | registration_tracker/app/app_utils.py:69 | definition: the text order of `ORDER BY c.subject`, character by character with a proper prefix first; TextOrderIsTotal proves it a total order |
| StudentPlan.TextOrderIsTotal | registration_tracker/app/app_utils.py:69 | the text order used for `ORDER BY c.subject` is total, antisymmetric and transitive |
| StudentPlan.CourseLe | registration_tracker/app/app_utils.py:69 | definition: `ORDER BY c.subject, c.number`, subject first, number within a subject; CourseOrderIsTotal proves it a total order |
| StudentPlan.CourseOrderIsTotal | registration_tracker/app/app_utils.py:69 | the (subject, number) order is total, antisymmetric and transitive |
| StudentPlan.ShapeKeepsCourseOrder | registration_tracker/app/app_utils.py:69-86 | courses fetched in (subject, number) order stay in that order in every semester entry |

## Left out

- SQLite itself is not modelled: connections, `execute`, `commit`, `close` and the storage of tables. An update's `execute` and `commit` are one outcome parameter. A read's result is a parameter: a sequence of rows, or a function of the bound id.
- The read-only `get_*` queries, `add_*` and `delete_*` are not modelled. Each is a single SQL statement inside try/except with no logic of its own.
- notes.py and admins.py are not modelled; they are query wrappers only.
- The Streamlit pages, home.py and app.py are not modelled; they render pages and manage session state.
- `protect_page` and `redirect_to_login` are not modelled. They switch pages, which is a side effect.
- The cached `get_student` is not modelled.
- database_creation.py is not modelled; it holds schema and seed data only. It is used only to check column types: `Courses.number` and `Semesters.year` are integers, and subjects and terms are text.
- The prerequisite checks, automatic course distribution and course add/remove are not modelled. The pages import them, but their code is not part of this model.
- The `start_term` argument of `create_plan` is not modelled. The shown function takes no such argument.
- The legacy files under registration_tracker/controllers/, and prerequisites.py and advisors.py under app/controllers/, are not modelled. They are incomplete or stubs.
- Values are `None`, strings and integers only. Python booleans and floats are not modelled.
- The controllers test each argument with one straight-line `if`. The model runs the same tests in argument order as one loop over the ordered argument list, which gives the same fragments, values and order.
- Python returns a dictionary. The model returns `Reply(success, message)` with the same fields. The error message is the prefix followed by the database error's text, since `str(e)` is a parameter.
- Lookup.FetchByName: without ORDER BY, SQLite gives `fetchone()` no fixed row. The model takes the first match in table order, but its contract promises only some row with the name.
- Semesters.InPlan: the plan's links are a set of semester ids. Two Plan_Semesters rows that link the same semester to one plan would return that semester twice; this is not modelled.
- StudentPlan.GetStudentPlan: each query's rows are a function of its bound id. The semester query and the course query have an ORDER BY; the plan query has none. The two ORDER BY clauses are not imposed on those functions. They are hypotheses of ShapeKeepsSemesterOrder and ShapeKeepsCourseOrder.
- StudentPlan.GetStudentPlan: `planOf` is the plan query's `fetchone()` as a whole, an inner join of Plans with Advisors. A plan whose `advisor_id` is NULL or names no advisor gives no row, so such a student also gets None. Which plan `fetchone()` picks when a student has several is not fixed.
- StudentPlan.GetStudentPlan: Python fills the lists inside the `plan_data` dictionary in place. The model builds the lists in locals and assembles the result at the end; nothing outside the call can see the difference.
- StudentPlan.TextLe: text order compares characters by code point, which for UTF-8 text agrees with SQLite's BINARY collation. Other collations are not modelled.
