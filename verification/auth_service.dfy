/**
 * Registration, login and password change over the user table.
 *
 * bcrypt and the JWT signer are parameters: `hash` stands for
 * `get_password_hash`, `verify` for `verify_password`, and `sign` for
 * `create_access_token` applied to the token subject.
 */
module AuthService {
  import opened Common
  import opened Text
  import opened UserModel
  import opened UserSchemas

  datatype Crypto = Crypto(
    hash: string -> string,
    verify: (string, string) -> bool,
    sign: string -> string)

  /** bcrypt accepts a password against its own hash. */
  ghost predicate HashVerifies(c: Crypto) {
    forall p :: c.verify(p, c.hash(p))
  }

  datatype TokenResponse = TokenResponse(accessToken: string, tokenType: string, user: User)

  /** The message shared by an unknown user and a wrong password. */
  const BadCredentials: string := "用户名或密码错误"

  /** The body of the global handler for an unhandled exception. */
  const InternalError: HttpError := ServerError("服务器内部错误")

  predicate UsernameTaken(db: UserStore, name: string) {
    exists i :: 0 <= i < |db| && db[i].username == name
  }

  predicate EmailTaken(db: UserStore, email: string) {
    exists i :: 0 <= i < |db| && db[i].email == email
  }

  predicate PhoneTaken(db: UserStore, phone: Option<string>) {
    phone.Some? && exists i :: 0 <= i < |db| && db[i].phone == phone
  }

  /** The row `register` inserts: role STUDENT, the hashed password, the nickname defaulting to the username. */
  function NewUser(db: UserStore, data: UserCreate, c: Crypto): User {
    User(NextId(db), data.username, data.email, data.phone, c.hash(data.password), Student,
         data.department, data.major, PyOr(data.nickname, Some(data.username)))
  }

  /**
   * `register`: a taken username is reported before a taken e-mail. A taken
   * phone passes both checks and fails on the unique constraint at commit,
   * which the global handler turns into a 500.
   */
  function Register(db: UserStore, data: UserCreate, c: Crypto): (r: Result<(UserStore, User)>)
    ensures UsernameTaken(db, data.username) ==> r == Err(Conflict("用户名已存在"))
    ensures !UsernameTaken(db, data.username) && EmailTaken(db, data.email) ==> r == Err(Conflict("邮箱已被注册"))
    ensures r.Ok? <==> !UsernameTaken(db, data.username) && !EmailTaken(db, data.email) && !PhoneTaken(db, data.phone)
    ensures r.Ok? ==> r.value.0 == db + [r.value.1]
    ensures r.Ok? ==> var u := r.value.1;
              u.role == Student && u.password == c.hash(data.password)
              && u.username == data.username && u.email == data.email && u.phone == data.phone
              && u.nickname == (if PyTruthy(data.nickname) then data.nickname else Some(data.username))
              && forall i :: 0 <= i < |db| ==> db[i].id != u.id
  {
    if UsernameTaken(db, data.username) then Err(Conflict("用户名已存在"))
    else if EmailTaken(db, data.email) then Err(Conflict("邮箱已被注册"))
    else if PhoneTaken(db, data.phone) then Err(InternalError)
    else
      var u := NewUser(db, data, c);
      Ok((db + [u], u))
  }

  /** A successful registration keeps every unique constraint. */
  lemma RegisterPreservesUnique(db: UserStore, data: UserCreate, c: Crypto)
    requires Unique(db)
    requires Register(db, data, c).Ok?
    ensures Unique(Register(db, data, c).value.0)
  {
    var (db', u) := Register(db, data, c).value;
    forall i, j | 0 <= i < j < |db'|
      ensures db'[i].id != db'[j].id && db'[i].username != db'[j].username && db'[i].email != db'[j].email
              && (db'[i].phone.Some? && db'[j].phone.Some? ==> db'[i].phone != db'[j].phone)
    {
      if j == |db| {
        assert db'[j] == u && db'[i] == db[i];
        assert db[i].username != data.username && db[i].email != data.email;
        assert data.phone.Some? ==> db[i].phone != data.phone;
      }
    }
  }

  /** The rows `username == x OR email == x` selects, in row order. */
  function Matches(db: UserStore, x: string): (m: seq<User>)
    ensures forall u :: u in m <==> u in db && (u.username == x || u.email == x)
    ensures multiset(m) <= multiset(db)
    decreases |db|
  {
    if |db| == 0 then []
    else
      var rest := Matches(db[1..], x);
      assert forall u :: u in db <==> u == db[0] || u in db[1..];
      assert db == [db[0]] + db[1..];
      if db[0].username == x || db[0].email == x then [db[0]] + rest else rest
  }

  /**
   * `login`: the identifier is matched against usernames and e-mails. No
   * match and a wrong password give the same 401; two matching rows (one
   * user's username is another's e-mail) make `scalar_one_or_none` raise.
   * The token's subject is the decimal user id.
   */
  function Login(db: UserStore, identifier: string, password: string, c: Crypto): (r: Result<TokenResponse>)
    ensures (forall i :: 0 <= i < |db| ==> db[i].username != identifier && db[i].email != identifier) ==>
              r == Err(Unauthorized(BadCredentials))
    ensures r.Err? && r.error.Unauthorized? ==> r.error == Unauthorized(BadCredentials)
    ensures r.Ok? ==> r.value.user in db && (r.value.user.username == identifier || r.value.user.email == identifier)
                      && c.verify(password, r.value.user.password)
                      && r.value.accessToken == c.sign(NatToString(r.value.user.id))
                      && r.value.tokenType == "bearer"
    ensures r.Ok? ==> Matches(db, identifier) == [r.value.user]
    ensures r.Ok? <==> |Matches(db, identifier)| == 1 && c.verify(password, Matches(db, identifier)[0].password)
    ensures |Matches(db, identifier)| > 1 ==> r == Err(InternalError)
    ensures |Matches(db, identifier)| == 1 && !c.verify(password, Matches(db, identifier)[0].password) ==>
              r == Err(Unauthorized(BadCredentials))
  {
    var m := Matches(db, identifier);
    if |m| == 0 then
      assert forall i :: 0 <= i < |db| ==> db[i].username != identifier && db[i].email != identifier ==> db[i] !in m;
      Err(Unauthorized(BadCredentials))
    else if |m| > 1 then
      assert m[0] in m;
      Err(InternalError)
    else if !c.verify(password, m[0].password) then Err(Unauthorized(BadCredentials))
    else Ok(TokenResponse(c.sign(NatToString(m[0].id)), "bearer", m[0]))
  }

  /** The token subject reads back as the user's id. */
  lemma TokenSubjectIsId(db: UserStore, identifier: string, password: string, c: Crypto)
    requires Login(db, identifier, password, c).Ok?
    ensures var u := Login(db, identifier, password, c).value.user;
            ParseDigits(NatToString(u.id)) == u.id
  {
    ParseNatToString(Login(db, identifier, password, c).value.user.id);
  }

  /**
   * A user who has just registered can log in with their username and
   * password, provided no other user's e-mail is that username.
   */
  lemma LoginAfterRegister(db: UserStore, data: UserCreate, c: Crypto)
    requires HashVerifies(c)
    requires Register(db, data, c).Ok?
    requires forall i :: 0 <= i < |db| ==> db[i].email != data.username
    ensures var (db', u) := Register(db, data, c).value;
            Login(db', data.username, data.password, c) == Ok(TokenResponse(c.sign(NatToString(u.id)), "bearer", u))
  {
    var (db', u) := Register(db, data, c).value;
    var m := Matches(db', data.username);
    forall v | v in db ensures v !in m {
      var i :| 0 <= i < |db| && db[i] == v;
      assert db[i].username != data.username;
    }
    assert u !in db;
    assert multiset(db')[u] == 1 by {
      assert multiset(db') == multiset(db) + multiset{u};
    }
    assert forall v :: v in db' ==> v in db || v == u;
    assert forall v :: v in m ==> v == u;
    assert u in m;
    assert |m| >= 2 ==> m[0] in m && m[1] in m;
    TwoCopies(m, u);
    assert multiset(m)[u] <= 1;
    assert |m| == 1;
    assert m == [u];
    assert c.verify(data.password, u.password);
  }

  /** Two leading copies of `x` put `x` twice in the multiset. */
  lemma TwoCopies<T>(m: seq<T>, x: T)
    ensures |m| >= 2 && m[0] == x && m[1] == x ==> multiset(m)[x] >= 2
  {
    if |m| >= 2 {
      assert m == [m[0]] + [m[1]] + m[2..];
    }
  }

  /** `change_password`: a wrong old password is a 400 and changes nothing; otherwise the new hash is stored. */
  function ChangePassword(user: User, oldPassword: string, newPassword: string, c: Crypto): (r: Result<User>)
    ensures r.Err? <==> !c.verify(oldPassword, user.password)
    ensures r.Err? ==> r.error == BadRequest("原密码错误")
    ensures r.Ok? ==> r.value.password == c.hash(newPassword) && r.value.(password := user.password) == user
  {
    if !c.verify(oldPassword, user.password) then Err(BadRequest("原密码错误"))
    else Ok(user.(password := c.hash(newPassword)))
  }

  /**
   * Passwords as the service treats them: a wrong password for an existing
   * user is indistinguishable from an unknown user, and after a change the new
   * password verifies against what is stored.
   */
  lemma PasswordLaws(db: UserStore, identifier: string, password: string, c: Crypto,
                     user: User, oldPassword: string, newPassword: string)
    ensures |Matches(db, identifier)| == 1 && !c.verify(password, Matches(db, identifier)[0].password) ==>
              Login(db, identifier, password, c) == Login([], identifier, password, c)
    ensures HashVerifies(c) && ChangePassword(user, oldPassword, newPassword, c).Ok? ==>
              c.verify(newPassword, ChangePassword(user, oldPassword, newPassword, c).value.password)
  {
  }
}
