/**
 * The paper request bodies: graduation and course paper creation, and the
 * record of a previous-years paper.
 */
module PaperSchemas {
  import opened Common
  import opened SchemaFields

  datatype GraduationPaperCreate = GraduationPaperCreate(
    title: string, supervisorId: Option<int>, department: Option<string>, major: Option<string>)

  /** `GraduationPaperCreate`: title at most 255 characters; department and major optional, at most 100. */
  function ValidateGraduationPaper(d: GraduationPaperCreate): (r: Result<GraduationPaperCreate>)
    ensures r.Ok? <==> |d.title| <= 255 && LenAtMost(d.department, 100) && LenAtMost(d.major, 100)
    ensures r.Ok? ==> r.value == d
    ensures r.Err? ==> r.error.Unprocessable?
  {
    FromErrors(Check(|d.title| <= 255, "title") + Check(LenAtMost(d.department, 100), "department")
               + Check(LenAtMost(d.major, 100), "major"), d)
  }

  datatype CoursePaperCreate = CoursePaperCreate(
    title: string, course: string, semester: string, supervisorId: Option<int>,
    department: Option<string>, major: Option<string>)

  /** `CoursePaperCreate`: the graduation bounds plus a course of at most 100 and a semester of at most 50. */
  function ValidateCoursePaper(d: CoursePaperCreate): (r: Result<CoursePaperCreate>)
    ensures r.Ok? <==> |d.title| <= 255 && |d.course| <= 100 && |d.semester| <= 50
                       && LenAtMost(d.department, 100) && LenAtMost(d.major, 100)
    ensures r.Ok? ==> r.value == d
    ensures r.Err? ==> r.error.Unprocessable?
  {
    FromErrors(Check(|d.title| <= 255, "title") + Check(|d.course| <= 100, "course")
               + Check(|d.semester| <= 50, "semester") + Check(LenAtMost(d.department, 100), "department")
               + Check(LenAtMost(d.major, 100), "major"), d)
  }

  datatype PreviousPaperCreate = PreviousPaperCreate(
    title: string, keywords: Option<seq<string>>, author: string, year: int, department: string,
    summary: Option<string>)

  const MinYear: int := 1900
  const MaxYear: int := 2100

  /** `PreviousPaperCreate`: title at most 255, author and department at most 100, year 1900 to 2100 inclusive. */
  function ValidatePreviousPaper(d: PreviousPaperCreate): (r: Result<PreviousPaperCreate>)
    ensures r.Ok? <==> |d.title| <= 255 && |d.author| <= 100 && |d.department| <= 100
                       && MinYear <= d.year <= MaxYear
    ensures r.Ok? ==> r.value == d
    ensures r.Err? ==> r.error.Unprocessable?
  {
    FromErrors(Check(|d.title| <= 255, "title") + Check(|d.author| <= 100, "author")
               + Check(MinYear <= d.year <= MaxYear, "year") + Check(|d.department| <= 100, "department"), d)
  }

  /**
   * A course body passes exactly when its graduation part passes and the two
   * course fields fit; both ends of the year range are accepted and one past
   * either end is not, whatever the other fields hold.
   */
  lemma PaperLaws(d: CoursePaperCreate, q: PreviousPaperCreate)
    ensures ValidateCoursePaper(d).Ok? <==>
              ValidateGraduationPaper(GraduationPaperCreate(d.title, d.supervisorId, d.department, d.major)).Ok?
              && |d.course| <= 100 && |d.semester| <= 50
    ensures |q.title| <= 255 && |q.author| <= 100 && |q.department| <= 100 ==>
              ValidatePreviousPaper(q.(year := 1900)).Ok? && ValidatePreviousPaper(q.(year := 2100)).Ok?
    ensures ValidatePreviousPaper(q.(year := 1899)).Err? && ValidatePreviousPaper(q.(year := 2101)).Err?
  {
  }
}
