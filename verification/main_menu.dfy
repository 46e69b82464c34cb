/**
 * The side menu of the main layout: three items for everyone, then the
 * items each minimum role unlocks, appended in a fixed order.
 */
module MainMenu {
  import opened Common
  import opened UserModel
  import opened Permissions
  import opened ClientAuth

  /** A menu entry: its route key, its title and the keys of its sub-entries. */
  datatype MenuItem = MenuItem(key: string, title: string, children: seq<string>)

  /** The dashboard, the papers group and the results, for every visitor. */
  const BaseItems: seq<MenuItem> := [
    MenuItem("/dashboard", "工作台", []),
    MenuItem("/papers", "我的论文", ["/papers/list", "/papers/upload"]),
    MenuItem("/results", "检查结果", [])]

  /** Templates, previous papers and statistics, for a teacher or above. */
  const TeacherItems: seq<MenuItem> := [
    MenuItem("/templates", "模板管理", []),
    MenuItem("/previous-papers", "往届论文", []),
    MenuItem("/statistics", "统计分析", [])]

  /** Parameter settings, for a director or above. */
  const DirectorItems: seq<MenuItem> := [MenuItem("/parameters", "参数设置", [])]

  /** User management, for an administrator. */
  const AdminItems: seq<MenuItem> := [MenuItem("/users", "用户管理", [])]

  /** `checkMinRole(minimum)` for the signed-in role. */
  predicate Unlocks(role: Option<string>, minimum: Role) {
    HasMinRole(role, Some(minimum.Value()))
  }

  /** `getMenuItems()` for a role. */
  function MenuItems(role: Option<string>): (items: seq<MenuItem>)
    ensures |items| >= 3 && items[..3] == BaseItems
    ensures |items| > 3 <==> Unlocks(role, Teacher)
    ensures AdminItems[0] in items <==> Unlocks(role, Admin)
  {
    BaseItems
    + (if Unlocks(role, Teacher) then TeacherItems else [])
    + (if Unlocks(role, Director) then DirectorItems else [])
    + (if Unlocks(role, Admin) then AdminItems else [])
  }

  /** `a` is an initial segment of `b`. */
  predicate IsMenuPrefix(a: seq<MenuItem>, b: seq<MenuItem>) {
    |a| <= |b| && b[..|a|] == a
  }

  /** Each unlock is monotone in the level: a role at least as high unlocks at least as much. */
  lemma UnlocksMonotone(a: Option<string>, b: Option<string>, minimum: Role)
    requires LevelOf(a) <= LevelOf(b)
    ensures Unlocks(a, minimum) ==> Unlocks(b, minimum)
  {
    if Unlocks(a, minimum) {
      assert LevelOf(b) >= Level(minimum) >= 1;
      var r := ParseRole(b.value).value;
      assert r.Value() != "" by {
        match r
        case Student =>
        case Teacher =>
        case Director =>
        case Dean =>
        case Admin =>
      }
    }
  }

  /**
   * The menus of the roles: a higher role's menu extends a lower one's, with
   * nothing reordered or dropped; three items without a known role or for a
   * student, six for a teacher, seven for a director or dean, eight for an
   * administrator.
   */
  lemma MenuLaws(a: Option<string>, b: Option<string>, other: Option<string>)
    ensures LevelOf(a) <= LevelOf(b) ==> IsMenuPrefix(MenuItems(a), MenuItems(b))
    ensures other.None? || ParseRole(other.value).None? ==> |MenuItems(other)| == 3
    ensures |MenuItems(Some(Student.Value()))| == 3
    ensures |MenuItems(Some(Teacher.Value()))| == 6
    ensures |MenuItems(Some(Director.Value()))| == 7
    ensures |MenuItems(Some(Dean.Value()))| == 7
    ensures |MenuItems(Some(Admin.Value()))| == 8
  {
    if LevelOf(a) <= LevelOf(b) {
      UnlocksMonotone(a, b, Teacher);
      UnlocksMonotone(a, b, Director);
      UnlocksMonotone(a, b, Admin);
    }
  }
}
