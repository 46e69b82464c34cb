/**
 * The user request bodies and their field bounds. `EmailStr` validation is a
 * parameter.
 */
module UserSchemas {
  import opened Common
  import opened SchemaFields
  import opened UserModel

  datatype UserCreate = UserCreate(
    username: string,
    email: string,
    phone: Option<string>,
    password: string,
    department: Option<string>,
    major: Option<string>,
    nickname: Option<string>)

  /** The fields of a `UserCreate` body that break their bounds, in declaration order. */
  function UserCreateErrors(d: UserCreate, isEmail: string -> bool): (errs: seq<string>)
    ensures |errs| <= 7
  {
    Check(3 <= |d.username| <= 50, "username")
    + Check(isEmail(d.email), "email")
    + Check(LenAtMost(d.phone, 20), "phone")
    + Check(6 <= |d.password| <= 50, "password")
    + Check(LenAtMost(d.department, 100), "department")
    + Check(LenAtMost(d.major, 100), "major")
    + Check(LenAtMost(d.nickname, 50), "nickname")
  }

  /**
   * `UserCreate`: username 3–50 characters, a valid e-mail, password 6–50;
   * phone at most 20, department and major at most 100, nickname at most 50,
   * each of these four optional.
   */
  function ValidateUserCreate(d: UserCreate, isEmail: string -> bool): (r: Result<UserCreate>)
    ensures r.Ok? <==>
              3 <= |d.username| <= 50 && isEmail(d.email) && 6 <= |d.password| <= 50
              && LenAtMost(d.phone, 20) && LenAtMost(d.department, 100)
              && LenAtMost(d.major, 100) && LenAtMost(d.nickname, 50)
    ensures r.Ok? ==> r.value == d
    ensures r.Err? ==> r.error.Unprocessable?
  {
    FromErrors(UserCreateErrors(d, isEmail), d)
  }

  datatype UserLogin = UserLogin(username: string, password: string)

  /** `UserLogin`: the identifier is free text; the password has at least 6 characters. */
  function UserLoginErrors(d: UserLogin): (errs: seq<string>)
    ensures errs == [] <==> |d.password| >= 6
  {
    Check(|d.password| >= 6, "password")
  }

  datatype PasswordUpdate = PasswordUpdate(oldPassword: string, newPassword: string)

  /** `PasswordUpdate`: both passwords have at least 6 characters, and each failure is named. */
  function PasswordUpdateErrors(d: PasswordUpdate): (errs: seq<string>)
    ensures "old_password" in errs <==> |d.oldPassword| < 6
    ensures "new_password" in errs <==> |d.newPassword| < 6
    ensures errs == [] <==> |d.oldPassword| >= 6 && |d.newPassword| >= 6
  {
    Check(|d.oldPassword| >= 6, "old_password") + Check(|d.newPassword| >= 6, "new_password")
  }

  datatype ProfileUpdate = ProfileUpdate(
    nickname: Option<string>, phone: Option<string>, department: Option<string>, major: Option<string>)

  /** `ProfileUpdate`: every field optional, with the same length caps as registration. */
  function ProfileUpdateErrors(d: ProfileUpdate): (errs: seq<string>)
    ensures errs == [] <==> LenAtMost(d.nickname, 50) && LenAtMost(d.phone, 20)
                            && LenAtMost(d.department, 100) && LenAtMost(d.major, 100)
  {
    var errs := Check(LenAtMost(d.nickname, 50), "nickname") + Check(LenAtMost(d.phone, 20), "phone")
                + Check(LenAtMost(d.department, 100), "department") + Check(LenAtMost(d.major, 100), "major");
    errs
  }

  /** An empty profile update is always valid. */
  lemma EmptyProfileUpdateValid()
    ensures ProfileUpdateErrors(ProfileUpdate(None, None, None, None)) == []
  {
  }

  /** `UserUpdate` as sent: the role as text, every field optional and unbounded. */
  datatype UserUpdateBody = UserUpdateBody(
    role: Option<string>, department: Option<string>, major: Option<string>, nickname: Option<string>)

  datatype UserUpdate = UserUpdate(
    role: Option<Role>, department: Option<string>, major: Option<string>, nickname: Option<string>)

  /** `UserUpdate`: a present role must be one of the five values; nothing else is checked. */
  function ParseUserUpdate(b: UserUpdateBody): (r: Result<UserUpdate>)
    ensures r.Ok? <==> b.role.None? || ParseRole(b.role.value).Some?
    ensures r.Ok? ==> r.value.department == b.department && r.value.major == b.major
                      && r.value.nickname == b.nickname
                      && (r.value.role.None? <==> b.role.None?)
                      && (r.value.role.Some? ==> r.value.role.value.Value() == b.role.value)
    ensures r.Err? ==> r.error.Unprocessable?
  {
    if b.role.None? then Ok(UserUpdate(None, b.department, b.major, b.nickname))
    else
      match ParseRole(b.role.value)
      case None => Err(Unprocessable("role"))
      case Some(role) => Ok(UserUpdate(Some(role), b.department, b.major, b.nickname))
  }
}
