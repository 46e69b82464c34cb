/**
 * The user table: the five roles, the user record, and the uniqueness the
 * database constraints impose on usernames, e-mail addresses and phones.
 */
module UserModel {
  import opened Common

  datatype Role = Student | Teacher | Director | Dean | Admin {
    /** The enum's string value. */
    function Value(): string {
      match this
      case Student => "student"
      case Teacher => "teacher"
      case Director => "director"
      case Dean => "dean"
      case Admin => "admin"
    }
  }

  const AllRoles: seq<Role> := [Student, Teacher, Director, Dean, Admin]

  /** The role whose value is `s`, as `UserRole(s)` looks it up. */
  function ParseRole(s: string): (r: Option<Role>)
    ensures r.Some? ==> r.value.Value() == s
    ensures r.None? ==> forall x: Role :: x.Value() != s
  {
    if s == "student" then Some(Student)
    else if s == "teacher" then Some(Teacher)
    else if s == "director" then Some(Director)
    else if s == "dean" then Some(Dean)
    else if s == "admin" then Some(Admin)
    else None
  }

  /** There are exactly five roles, each with its own value, and reading a value back gives the role. */
  lemma RoleValuesRoundTrip()
    ensures forall r: Role :: r in AllRoles && ParseRole(r.Value()) == Some(r)
    ensures forall i, j :: 0 <= i < j < |AllRoles| ==> AllRoles[i].Value() != AllRoles[j].Value()
  {
    forall r: Role ensures r in AllRoles && ParseRole(r.Value()) == Some(r) {
      match r
      case Student =>
      case Teacher =>
      case Director =>
      case Dean =>
      case Admin =>
    }
  }

  /** A row of the user table; `password` holds the hash, never the plain text. */
  datatype User = User(
    id: nat,
    username: string,
    email: string,
    phone: Option<string>,
    password: string,
    role: Role,
    department: Option<string>,
    major: Option<string>,
    nickname: Option<string>)

  /** The role a row gets when none is given. */
  const DefaultRole: Role := Student

  /** The user table, in row order. */
  type UserStore = seq<User>

  /**
   * The unique constraints: no two rows share an id, a username or an
   * e-mail, and no two share a non-null phone.
   */
  predicate Unique(db: UserStore) {
    forall i, j :: 0 <= i < j < |db| ==>
      db[i].id != db[j].id
      && db[i].username != db[j].username
      && db[i].email != db[j].email
      && (db[i].phone.Some? && db[j].phone.Some? ==> db[i].phone != db[j].phone)
  }

  /** The row with id `id`, if any. */
  function FindUser(db: UserStore, id: nat): (r: Option<User>)
    ensures r.Some? ==> r.value in db && r.value.id == id
    ensures r.None? <==> forall i :: 0 <= i < |db| ==> db[i].id != id
    decreases |db|
  {
    if |db| == 0 then None
    else if db[0].id == id then Some(db[0])
    else FindUser(db[1..], id)
  }

  /** The id the table's autoincrement hands out next: one past the largest id in use. */
  function NextId(db: UserStore): (n: nat)
    ensures forall i :: 0 <= i < |db| ==> db[i].id < n
    decreases |db|
  {
    if |db| == 0 then 1
    else Max(db[0].id + 1, NextId(db[1..]))
  }
}
