/** The user roles of the custom user model (users/models.py). */
module Users {

  /** `CustomUser.Roles`: the three choices of the `role` field. */
  datatype Role = Student | Teacher | Hod

  /** The stored value of each choice, as the backend and the frontend spell it. */
  function RoleName(r: Role): string {
    match r
    case Student => "student"
    case Teacher => "teacher"
    case Hod => "hod"
  }

  /** A new user is a student unless a role is given. */
  const DefaultRole: Role := Student

  /** Different roles are stored as different strings, so a role can be read back
      from its stored value. */
  lemma RoleNameInjective(a: Role, b: Role)
    ensures RoleName(a) == RoleName(b) <==> a == b
  {
  }
}
