/** The DRF permission classes of attendance/permissions.py. Each one is a
    single boolean test on the user attached to the request. */
module Permissions {
  import opened Wrappers
  import opened Users

  /** The user on a request: `is_authenticated`, and the `role` attribute,
      which an anonymous user does not have (`None`). */
  datatype RequestUser = RequestUser(authenticated: bool, role: Option<string>)

  /** `getattr(request.user, "role", "")`. */
  function RoleAttr(u: RequestUser): string {
    u.role.GetOr("")
  }

  /** `IsTeacher.has_permission`. */
  predicate IsTeacher(u: RequestUser)
    ensures IsTeacher(u) <==> u.authenticated && u.role == Some("teacher")
  {
    u.authenticated && RoleAttr(u) == "teacher"
  }

  /** `IsStudent.has_permission`. */
  predicate IsStudent(u: RequestUser)
    ensures IsStudent(u) <==> u.authenticated && u.role == Some("student")
  {
    u.authenticated && RoleAttr(u) == "student"
  }

  /** `IsHOD.has_permission`. */
  predicate IsHOD(u: RequestUser)
    ensures IsHOD(u) <==> u.authenticated && u.role == Some("hod")
  {
    u.authenticated && RoleAttr(u) == "hod"
  }

  /** The permission class that admits a role. */
  predicate Admits(r: Role, u: RequestUser) {
    match r
    case Student => IsStudent(u)
    case Teacher => IsTeacher(u)
    case Hod => IsHOD(u)
  }

  /** Each predicate holds exactly for an authenticated user whose role
      attribute is the stored name of its role. */
  lemma AdmitsExactly(r: Role, u: RequestUser)
    ensures Admits(r, u) <==> u.authenticated && u.role == Some(RoleName(r))
  {
  }

  /** An anonymous user, or one without a role attribute, passes none of them. */
  lemma NoRoleNoAccess(u: RequestUser)
    requires !u.authenticated || u.role.None?
    ensures !IsTeacher(u) && !IsStudent(u) && !IsHOD(u)
  {
  }

  /** A user created without a role gets the default, student: once
      authenticated it passes `IsStudent` and neither of the others. */
  lemma DefaultRoleIsStudent(authenticated: bool)
    ensures var u := RequestUser(authenticated, Some(RoleName(DefaultRole)));
            (IsStudent(u) <==> authenticated) && !IsTeacher(u) && !IsHOD(u)
  {
  }

  /** At most one of them holds for any user. */
  lemma AtMostOneRole(u: RequestUser, a: Role, b: Role)
    requires Admits(a, u) && Admits(b, u)
    ensures a == b
  {
    AdmitsExactly(a, u);
    AdmitsExactly(b, u);
    RoleNameInjective(a, b);
  }
}
