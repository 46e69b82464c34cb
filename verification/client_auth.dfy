/**
 * The client's mirror of the role rules and its file-type check. A role
 * arrives as an optional text (`undefined` and `null` are `None`), and a
 * requirement is either a list of role values or one optional role value.
 */
module ClientAuth {
  import opened Common
  import opened Text
  import opened UserModel
  import opened Permissions
  import opened FileHandler
  import opened ClientConstants

  /** The second argument of `hasPermission`: an array of roles, or a single (possibly missing) role. */
  datatype Required = AnyOf(roles: seq<string>) | One(role: Option<string>)

  /** `ROLE_LEVELS[role] || 0`: the role's level, 0 for a missing or unknown role. */
  function LevelOf(role: Option<string>): (n: nat)
    ensures n <= 5
    ensures n == 0 <==> role.None? || ParseRole(role.value).None?
    ensures forall r: Role :: role == Some(r.Value()) ==> n == Level(r)
  {
    AgreesWithServer();
    if role.Some? && role.value in RoleLevels then RoleLevels[role.value] else 0
  }

  /** `hasPermission(userRole, requiredRoles)`. */
  function HasPermission(userRole: Option<string>, required: Required): (b: bool)
    ensures !PyTruthy(userRole) ==> !b
    ensures userRole == Some(Admin.Value()) ==> b
    ensures (PyTruthy(userRole) && userRole != Some(Admin.Value()) && required.AnyOf?) ==>
              (b <==> userRole.value in required.roles)
    ensures (PyTruthy(userRole) && required.One?) ==> (b <==> LevelOf(userRole) >= LevelOf(required.role))
  {
    if !PyTruthy(userRole) then false
    else if userRole.value == "admin" then true
    else match required
      case AnyOf(roles) => userRole.value in roles
      case One(role) => LevelOf(userRole) >= LevelOf(role)
  }

  /** `hasMinRole(userRole, minRole)`. */
  function HasMinRole(userRole: Option<string>, minRole: Option<string>): (b: bool)
    ensures b ==> PyTruthy(userRole)
  {
    PyTruthy(userRole) && LevelOf(userRole) >= LevelOf(minRole)
  }

  /**
   * The laws of the client's role checks: for a single required role
   * `hasMinRole` and `hasPermission` agree, the administrator shortcut
   * included; over real roles both are the server's `has_minimum_role`; an
   * administrator passes even a list that does not name the administrator;
   * and a requirement naming no known role has level 0, so any present role
   * meets it.
   */
  lemma CheckLaws(userRole: Option<string>, minRole: Option<string>, u: User, minimum: Role, roles: seq<string>)
    ensures HasMinRole(userRole, minRole) == HasPermission(userRole, One(minRole))
    ensures HasPermission(Some(u.role.Value()), One(Some(minimum.Value()))) <==> HasMinimumRole(u, minimum)
    ensures HasMinRole(Some(u.role.Value()), Some(minimum.Value())) <==> HasMinimumRole(u, minimum)
    ensures HasPermission(Some("admin"), AnyOf(roles))
    ensures userRole.Some? && userRole.value != "" && (minRole.None? || ParseRole(minRole.value).None?) ==>
              HasPermission(userRole, One(minRole)) && HasMinRole(userRole, minRole)
  {
  }

  /** `'.' + name.split('.').pop().toLowerCase()`: the text after the last dot, or the whole name without one. */
  function ClientExtension(name: string): (ext: string)
    ensures |ext| >= 1 && ext[0] == '.' && !ContainsChar(ext[1..], '.')
    ensures |ext| <= |name| + 1
  {
    var i := LastIndexOf(name, '.');
    var e := "." + Lower(name[i + 1..]);
    assert e[1..] == Lower(name[i + 1..]);
    e
  }

  /** `checkFileType(file, allowedTypes)`: no file or no name fails, otherwise the extension must be listed. */
  function CheckFileType(name: Option<string>, allowed: seq<string>): (b: bool)
    ensures b ==> PyTruthy(name)
    ensures PyTruthy(name) ==> (b <==> ClientExtension(name.value) in allowed)
  {
    PyTruthy(name) && ClientExtension(name.value) in allowed
  }

  /** A name `stem.ext` with a dot-free extension is judged by `.ext`, lower-cased, whatever the stem. */
  lemma ClientExtensionOfStemAndExt(stem: string, ext: string)
    requires !ContainsChar(ext, '.')
    ensures ClientExtension(stem + "." + ext) == "." + Lower(ext)
  {
    var name := stem + "." + ext;
    assert name[|stem|] == '.';
    assert forall k :: |stem| < k < |name| ==> name[k] == ext[k - |stem| - 1];
    assert LastIndexOf(name, '.') == |stem|;
    assert name[|stem| + 1..] == ext;
  }

  /** A name without a dot is its own extension: "docx" passes the client's check, and the server refuses it. */
  lemma DotlessNameAcceptedByClientOnly()
    ensures CheckFileType(Some("docx"), AllowedFileTypes)
    ensures ValidateFile(Some("docx")).Err?
  {
    assert LastIndexOf("docx", '.') == -1;
    assert Lower("docx") == "docx";
    assert ClientExtension("docx") == ".docx";
    NoExtensionCases("docx");
  }
}
