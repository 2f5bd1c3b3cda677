/** The role gate `check_auth` (registration_tracker/app/auth_utils.py). The
    session state is a parameter: each of its two keys is either missing
    (None) or holds a string. */
module Auth {
  import opened Values

  /** The roles a page admits: one role, or a list of roles. */
  datatype Required = One(role: string) | Many(roles: seq<string>)

  /** The two session keys the gate reads. */
  datatype Session = Session(username: Option<string>, userRole: Option<string>)

  /** The single-role form is turned into a one-element list first. */
  function RoleList(required: Required): seq<string>
  {
    match required
    case One(role) => [role]
    case Many(roles) => roles
  }

  /** A key that is present and holds a non-empty string. */
  predicate Present(v: Option<string>)
  {
    v.Some? && v.value != ""
  }

  /** Refuse a session without a user name, then one without a role, and
      otherwise admit exactly the listed roles. */
  function CheckAuth(session: Session, required: Required): (ok: bool)
    ensures ok <==>
      Present(session.username) && Present(session.userRole) &&
      session.userRole.value in RoleList(required)
  {
    var roles := RoleList(required);
    if session.username.None? || session.username.value == "" then false
    else if session.userRole.None? || session.userRole.value == "" then false
    else session.userRole.value in roles
  }

  /** A single role admits the same sessions as the list holding only it. */
  lemma SingleRoleIsList(session: Session, role: string)
    ensures CheckAuth(session, One(role)) == CheckAuth(session, Many([role]))
  {
  }

  /** With no user name, or an empty one, nobody is admitted. */
  lemma NoUserDenied(session: Session, required: Required)
    requires !Present(session.username)
    ensures !CheckAuth(session, required)
  {
  }

  /** With no role, or an empty one, nobody is admitted. */
  lemma NoRoleDenied(session: Session, required: Required)
    requires !Present(session.userRole)
    ensures !CheckAuth(session, required)
  {
  }

  /** A logged-in user with a role is admitted exactly when that role is listed. */
  lemma AdmittedByRole(user: string, role: string, required: Required)
    requires user != "" && role != ""
    ensures CheckAuth(Session(Some(user), Some(role)), required) <==> role in RoleList(required)
  {
  }

  /** Listing more roles never turns an admission into a refusal. */
  lemma MoreRolesAdmitMore(session: Session, fewer: seq<string>, more: seq<string>)
    requires forall r :: r in fewer ==> r in more
    requires CheckAuth(session, Many(fewer))
    ensures CheckAuth(session, Many(more))
  {
  }

  /** An empty list admits nobody. */
  lemma EmptyListDenies(session: Session)
    ensures !CheckAuth(session, Many([]))
  {
  }

  /** The three page kinds of the application, each gated by its own role. */
  method RoleScenario()
  {
    var advisor := Session(Some("jdoe"), Some("advisor"));
    assert CheckAuth(advisor, One("advisor"));
    assert !CheckAuth(advisor, One("student"));
    assert CheckAuth(advisor, Many(["admin", "advisor"]));
    assert !CheckAuth(Session(Some("jdoe"), None), One("advisor"));
    assert !CheckAuth(Session(Some(""), Some("advisor")), One("advisor"));
  }
}
