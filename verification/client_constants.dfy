/**
 * The client's shared constants: the role levels, the check statuses and
 * the grade tables, and the upload limits, each tied back to the server's
 * own definition of the same thing.
 */
module ClientConstants {
  import opened Common
  import opened UserModel
  import opened Permissions
  import opened CheckModel
  import opened FileHandler

  /** `ROLE_LEVELS`: student 1 up to admin 5, keyed by the role's value. */
  const RoleLevels: map<string, nat> :=
    map["student" := 1, "teacher" := 2, "director" := 3, "dean" := 4, "admin" := 5]

  /** `CHECK_STATUS`, in declaration order. */
  const CheckStatuses: seq<string> := ["pending", "processing", "completed", "failed"]

  /** `CHECK_STATUS_NAMES`. */
  const CheckStatusNames: map<string, string> :=
    map["pending" := "等待中", "processing" := "检查中", "completed" := "已完成", "failed" := "检查失败"]

  /** `GRADE_LEVELS`, in declaration order. */
  const GradeLevels: seq<string> := ["excellent", "good", "passing", "failure"]

  /** `GRADE_NAMES`. */
  const GradeNames: map<string, string> :=
    map["excellent" := "优秀", "good" := "良好", "passing" := "合格", "failure" := "不合格"]

  /** `GRADE_COLORS`. */
  const GradeColors: map<string, string> :=
    map["excellent" := "success", "good" := "processing", "passing" := "warning", "failure" := "error"]

  /** The default of `MAX_UPLOAD_SIZE`: 50 MiB. */
  const ClientMaxUploadSize: nat := 52428800

  /** `ALLOWED_FILE_TYPES`. */
  const AllowedFileTypes: seq<string> := [".docx"]

  /**
   * The client's tables agree with the server: every role has the server's
   * level and only role values have one; the client knows exactly the
   * server's four check statuses, each with a display name; every grade, and
   * nothing else, has a name and a colour; and the default upload limit is
   * the server's, with the one client type among the server's extensions.
   */
  lemma AgreesWithServer()
    ensures forall r: Role :: r.Value() in RoleLevels && RoleLevels[r.Value()] == Level(r)
    ensures forall s :: s in RoleLevels <==> ParseRole(s).Some?
    ensures forall s :: s in CheckStatuses <==> ParseCheckStatus(s).Some?
    ensures forall c: CheckStatus :: c.Value() in CheckStatuses
    ensures forall s :: s in CheckStatuses <==> s in CheckStatusNames
    ensures forall g :: g in GradeLevels <==> g in GradeNames
    ensures forall g :: g in GradeLevels <==> g in GradeColors
    ensures forall i, j :: 0 <= i < j < |GradeLevels| ==> GradeLevels[i] != GradeLevels[j]
    ensures ClientMaxUploadSize == MaxUploadSize
    ensures forall t :: t in AllowedFileTypes ==> t in AllowedExtensions
    ensures ".doc" in AllowedExtensions && ".doc" !in AllowedFileTypes
  {
    forall r: Role ensures r.Value() in RoleLevels && RoleLevels[r.Value()] == Level(r) {
      match r
      case Student =>
      case Teacher =>
      case Director =>
      case Dean =>
      case Admin =>
    }
    EnumValuesExact();
    assert CheckStatuses == StatusValues;
  }
}
