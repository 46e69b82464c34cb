/**
 * The paper routes: the two upload routes, the merged and paginated
 * listing, and the detail and delete routes with their access gates.
 */
module PapersApi {
  import opened Common
  import opened Text
  import opened UserModel
  import opened Permissions
  import opened PaperModel
  import opened FileHandler
  import opened CommonSchemas

  // The store is the pair of paper tables; the file bytes are reduced to
  // their size, and the clock stamp and digest that name a stored file are
  // parameters.

  /** The multipart form of the upload routes; `course` and `semester` belong to the course route. */
  datatype UploadForm = UploadForm(
    filename: Option<string>,
    size: nat,
    title: string,
    course: Option<string>,
    semester: Option<string>,
    supervisorId: Option<nat>,
    department: Option<string>,
    major: Option<string>)

  /**
   * Both routes declare `title` as a required form field, and the course
   * route also `course` and `semester`. The form parser treats an empty
   * value like an absent one, so a required field must be present and
   * non-empty.
   */
  predicate FormComplete(kind: PaperKind, form: UploadForm) {
    form.title != ""
    && (kind == Course ==> form.course.Some? && form.course.value != ""
                           && form.semester.Some? && form.semester.value != "")
  }

  /** `os.path.join(a, b)` for two components. */
  function PathJoin(a: string, b: string): (r: string)
    ensures IsSuffix(b, r)
  {
    if |b| > 0 && b[0] == '/' then b
    else if a == [] || a[|a| - 1] == '/' then a + b
    else a + "/" + b
  }

  /**
   * `upload_graduation_paper` and `upload_course_paper`: the file is saved
   * under `<storage>/<kind>`, and the new row is a DRAFT authored by the
   * caller, whose department and major fill in for missing or empty ones.
   */
  function Upload(store: PaperStore, kind: PaperKind, form: UploadForm, user: User,
                  storage: string, timestamp: string, digest: string): (r: Result<(PaperStore, Paper)>)
    ensures r.Ok? <==> FormComplete(kind, form) && ValidateFile(form.filename).Ok? && form.size <= MaxUploadSize
    ensures !FormComplete(kind, form) ==> r.Err? && r.error.Unprocessable?
    ensures FormComplete(kind, form) && ValidateFile(form.filename).Err? ==> r == Err(ValidateFile(form.filename).error)
    ensures r.Ok? ==>
              var (s, p) := r.value;
              p.status == Draft && p.authorId == user.id && p.title == form.title
              && p.supervisorId == form.supervisorId
              && p.department == PyOr(form.department, user.department)
              && p.major == PyOr(form.major, user.major)
              && p.fileSize == form.size && p.fileFormat in AllowedExtensions
              && (kind == Course ==> p.course == form.course && p.semester == form.semester)
              && (kind == Graduation ==> p.course.None? && p.semester.None?)
    ensures r.Ok? ==>
              var (s, p) := r.value;
              s.Table(kind) == store.Table(kind) + [p]
              && (forall k: PaperKind :: k != kind ==> s.Table(k) == store.Table(k))
              && (forall i :: 0 <= i < |store.Table(kind)| ==> store.Table(kind)[i].id != p.id)
  {
    if !FormComplete(kind, form) then Err(Unprocessable(if form.title == "" then "title" else "course, semester"))
    else
      var (name, size) :- SaveUploadFile(form.filename, form.size, None, timestamp, digest);
      var table := store.Table(kind);
      var p := Paper(NextPaperId(table), form.title, user.id, form.supervisorId,
                     if kind == Course then form.course else None,
                     if kind == Course then form.semester else None,
                     PathJoin(PathJoin(storage, kind.Value()), name),
                     GetFileExtension(form.filename.value), size, Draft,
                     PyOr(form.department, user.department), PyOr(form.major, user.major));
      Ok((store.Put(kind, table + [p]), p))
  }

  /** `PaperListResponse`: the summary row of a listing, tagged with its table. */
  datatype ListItem = ListItem(id: nat, title: string, authorId: nat, status: PaperStatus, kind: PaperKind)

  function ItemOf(p: Paper, kind: PaperKind): ListItem {
    ListItem(p.id, p.title, p.authorId, p.status, kind)
  }

  /** The `where` clauses of `get_papers`: below TEACHER only one's own papers, and the status filter when given. */
  predicate Listed(p: Paper, user: User, status: Option<PaperStatus>) {
    (HasMinimumRole(user, Teacher) || p.authorId == user.id) && (status.None? || p.status == status.value)
  }

  /** The rows of one table that pass the `where` clauses, in row order. */
  function Filter(table: PaperTable, user: User, status: Option<PaperStatus>): (r: PaperTable)
    ensures forall p :: p in r <==> p in table && Listed(p, user, status)
    ensures forall p {:trigger multiset(r)[p]} :: multiset(r)[p] == if Listed(p, user, status) then multiset(table)[p] else 0
    ensures |r| <= |table|
    ensures (forall i :: 0 <= i < |table| ==> Listed(table[i], user, status)) ==> r == table
    decreases |table|
  {
    if |table| == 0 then []
    else
      var rest := Filter(table[1..], user, status);
      assert table == [table[0]] + table[1..];
      if Listed(table[0], user, status) then [table[0]] + rest else rest
  }

  function Items(ps: PaperTable, kind: PaperKind): (r: seq<ListItem>)
    ensures |r| == |ps|
    ensures forall i :: 0 <= i < |ps| ==> r[i] == ItemOf(ps[i], kind)
  {
    seq(|ps|, i requires 0 <= i < |ps| => ItemOf(ps[i], kind))
  }

  /** The listed rows of one table as summary rows, in row order. */
  function TableItems(table: PaperTable, kind: PaperKind, user: User, status: Option<PaperStatus>): (r: seq<ListItem>)
    ensures forall i :: 0 <= i < |r| ==> r[i].kind == kind
    ensures forall i :: 0 <= i < |r| ==> status.None? || r[i].status == status.value
    ensures !HasMinimumRole(user, Teacher) ==> forall i :: 0 <= i < |r| ==> r[i].authorId == user.id
    ensures forall p :: p in table && Listed(p, user, status) ==> ItemOf(p, kind) in r
    ensures forall i :: 0 <= i < |r| ==> exists p :: p in table && Listed(p, user, status) && r[i] == ItemOf(p, kind)
    ensures |r| == |Filter(table, user, status)|
  {
    var f := Filter(table, user, status);
    var r := Items(f, kind);
    assert forall i :: 0 <= i < |f| ==> f[i] in f;
    forall i | 0 <= i < |r| ensures exists p :: p in table && Listed(p, user, status) && r[i] == ItemOf(p, kind) {
      assert f[i] in f && r[i] == ItemOf(f[i], kind);
    }
    forall p | p in table && Listed(p, user, status) ensures ItemOf(p, kind) in r {
      var i :| 0 <= i < |f| && f[i] == p;
      assert r[i] == ItemOf(p, kind);
    }
    r
  }

  /** Whether a `paper_type` filter asks for the table of kind `k`. */
  predicate Wanted(kind: Option<PaperKind>, k: PaperKind) {
    kind.None? || kind == Some(k)
  }

  /** The item summarises a listed row of a requested table. */
  ghost predicate FromListedRow(store: PaperStore, user: User, kind: Option<PaperKind>, status: Option<PaperStatus>, item: ListItem) {
    exists k: PaperKind, p :: Wanted(kind, k) && p in store.Table(k) && Listed(p, user, status) && item == ItemOf(p, k)
  }

  /** What the table of kind `k` contributes to the merged list: its listed rows when asked for, else nothing. */
  function Part(store: PaperStore, k: PaperKind, user: User, kind: Option<PaperKind>, status: Option<PaperStatus>): seq<ListItem> {
    if Wanted(kind, k) then TableItems(store.Table(k), k, user, status) else []
  }

  /** The merged list before pagination: graduation papers first, then course papers, each table as requested. */
  function Listing(store: PaperStore, user: User, kind: Option<PaperKind>, status: Option<PaperStatus>): (r: seq<ListItem>)
    ensures forall i :: 0 <= i < |r| ==> kind.None? || r[i].kind == kind.value
    ensures forall i, j :: 0 <= i < j < |r| ==> !(r[i].kind == Course && r[j].kind == Graduation)
    ensures forall i :: 0 <= i < |r| ==> status.None? || r[i].status == status.value
    ensures !HasMinimumRole(user, Teacher) ==> forall i :: 0 <= i < |r| ==> r[i].authorId == user.id
    ensures forall k: PaperKind, p :: Wanted(kind, k) && p in store.Table(k) && Listed(p, user, status)
              ==> ItemOf(p, k) in r
    ensures forall i :: 0 <= i < |r| ==> FromListedRow(store, user, kind, status, r[i])
    ensures |r| == (if Wanted(kind, Graduation) then |Filter(store.graduation, user, status)| else 0)
                 + (if Wanted(kind, Course) then |Filter(store.course, user, status)| else 0)
  {
    var g, c := Part(store, Graduation, user, kind, status), Part(store, Course, user, kind, status);
    MergedParts(g, c, kind, user, status);
    MergedMembers(store, user, kind, status);
    PartSound(store, Graduation, user, kind, status);
    PartSound(store, Course, user, kind, status);
    MergedSound(store, user, kind, status, g, c);
    MergedCount(store, user, kind, status);
    g + c
  }

  /** Every listed row of a requested table appears in the merged list. */
  lemma MergedMembers(store: PaperStore, user: User, kind: Option<PaperKind>, status: Option<PaperStatus>)
    ensures var m := Part(store, Graduation, user, kind, status) + Part(store, Course, user, kind, status);
            forall k: PaperKind, p :: Wanted(kind, k) && p in store.Table(k) && Listed(p, user, status) ==> ItemOf(p, k) in m
  {
    var g, c := Part(store, Graduation, user, kind, status), Part(store, Course, user, kind, status);
    forall k: PaperKind, p | Wanted(kind, k) && p in store.Table(k) && Listed(p, user, status)
      ensures ItemOf(p, k) in g + c
    {
      if k == Graduation {
        assert ItemOf(p, k) in g;
      } else {
        assert ItemOf(p, k) in c;
      }
    }
  }

  /** The merged list has one item per listed row of the requested tables. */
  lemma MergedCount(store: PaperStore, user: User, kind: Option<PaperKind>, status: Option<PaperStatus>)
    ensures |Part(store, Graduation, user, kind, status) + Part(store, Course, user, kind, status)|
            == (if Wanted(kind, Graduation) then |Filter(store.graduation, user, status)| else 0)
             + (if Wanted(kind, Course) then |Filter(store.course, user, status)| else 0)
  {
    assert store.Table(Graduation) == store.graduation && store.Table(Course) == store.course;
  }

  /** Every item of a table's part summarises a listed row of that table. */
  lemma PartSound(store: PaperStore, k: PaperKind, user: User, kind: Option<PaperKind>, status: Option<PaperStatus>)
    ensures forall i :: 0 <= i < |Part(store, k, user, kind, status)| ==>
              FromListedRow(store, user, kind, status, Part(store, k, user, kind, status)[i])
  {
    var part := Part(store, k, user, kind, status);
    var f := Filter(store.Table(k), user, status);
    forall i | 0 <= i < |part| ensures FromListedRow(store, user, kind, status, part[i]) {
      var p := f[i];
      assert p in f;
      assert Wanted(kind, k) && p in store.Table(k) && Listed(p, user, status) && part[i] == ItemOf(p, k);
    }
  }

  /** Items that each summarise a listed row still do so once concatenated. */
  lemma MergedSound(store: PaperStore, user: User, kind: Option<PaperKind>, status: Option<PaperStatus>,
                    g: seq<ListItem>, c: seq<ListItem>)
    requires forall i :: 0 <= i < |g| ==> FromListedRow(store, user, kind, status, g[i])
    requires forall i :: 0 <= i < |c| ==> FromListedRow(store, user, kind, status, c[i])
    ensures forall i :: 0 <= i < |g + c| ==> FromListedRow(store, user, kind, status, (g + c)[i])
  {
    forall i | 0 <= i < |g + c| ensures FromListedRow(store, user, kind, status, (g + c)[i]) {
      if i < |g| {
        assert (g + c)[i] == g[i];
      } else {
        assert (g + c)[i] == c[i - |g|];
      }
    }
  }

  /**
   * Graduation items followed by course items: never a course item before a
   * graduation one, each kind only when asked for, and the status and author
   * filters of both parts hold for the merged list.
   */
  lemma MergedParts(g: seq<ListItem>, c: seq<ListItem>, kind: Option<PaperKind>, user: User, status: Option<PaperStatus>)
    requires forall i :: 0 <= i < |g| ==> g[i].kind == Graduation
    requires forall i :: 0 <= i < |c| ==> c[i].kind == Course
    requires |g| > 0 ==> kind.None? || kind == Some(Graduation)
    requires |c| > 0 ==> kind.None? || kind == Some(Course)
    requires forall i :: 0 <= i < |g| ==> status.None? || g[i].status == status.value
    requires forall i :: 0 <= i < |c| ==> status.None? || c[i].status == status.value
    requires !HasMinimumRole(user, Teacher) ==> forall i :: 0 <= i < |g| ==> g[i].authorId == user.id
    requires !HasMinimumRole(user, Teacher) ==> forall i :: 0 <= i < |c| ==> c[i].authorId == user.id
    ensures forall i :: 0 <= i < |g + c| ==> kind.None? || (g + c)[i].kind == kind.value
    ensures forall i, j :: 0 <= i < j < |g + c| ==> !((g + c)[i].kind == Course && (g + c)[j].kind == Graduation)
    ensures forall i :: 0 <= i < |g + c| ==> status.None? || (g + c)[i].status == status.value
    ensures !HasMinimumRole(user, Teacher) ==> forall i :: 0 <= i < |g + c| ==> (g + c)[i].authorId == user.id
  {
  }

  /** The `paper_type` query value: absent means both tables; anything but the two names is a 422. */
  function ParseKindFilter(paperType: Option<string>): (r: Result<Option<PaperKind>>)
    ensures paperType.None? ==> r == Ok(None)
    ensures paperType.Some? ==> (r.Ok? <==> ParsePaperKind(paperType.value).Some?)
    ensures paperType.Some? && r.Ok? ==> r.value == ParsePaperKind(paperType.value)
    ensures r.Err? ==> r.error.Unprocessable?
  {
    match paperType
    case None => Ok(None)
    case Some(s) => if ParsePaperKind(s).None? then Err(Unprocessable("paper_type")) else Ok(ParsePaperKind(s))
  }

  /** The `status` query value: absent means no filter; a value outside the enum is a 422. */
  function ParseStatusFilter(status: Option<string>): (r: Result<Option<PaperStatus>>)
    ensures status.None? ==> r == Ok(None)
    ensures status.Some? ==> (r.Ok? <==> ParsePaperStatus(status.value).Some?)
    ensures status.Some? && r.Ok? ==> r.value == ParsePaperStatus(status.value)
    ensures r.Err? ==> r.error.Unprocessable?
  {
    match status
    case None => Ok(None)
    case Some(s) => if ParsePaperStatus(s).None? then Err(Unprocessable("status")) else Ok(ParsePaperStatus(s))
  }

  /** `get_papers`: query validation, then one page of the merged listing. */
  function GetPapers(store: PaperStore, user: User, page: int, pageSize: int,
                     paperType: Option<string>, status: Option<string>): (r: Result<PaginatedResponse<ListItem>>)
    ensures r.Ok? <==> ValidatePagination(page, pageSize).Ok? && ParseKindFilter(paperType).Ok?
                       && ParseStatusFilter(status).Ok?
    ensures r.Err? ==> r.error.Unprocessable?
    ensures r.Ok? ==>
              var all := Listing(store, user, ParseKindFilter(paperType).value, ParseStatusFilter(status).value);
              page >= 1 && pageSize >= 1
              && r.value.total == |all| && r.value.page == page && r.value.pageSize == pageSize
              && r.value.totalPages == PageCount(|all|, pageSize)
              && r.value.items == PageItems(all, page, pageSize)
  {
    var p :- ValidatePagination(page, pageSize);
    var kind :- ParseKindFilter(paperType);
    var st :- ParseStatusFilter(status);
    Ok(Paginate(Listing(store, user, kind, st), p))
  }

  /** The paper a `paper_type`/`paper_id` pair names, after the pattern check on the type. */
  function Lookup(store: PaperStore, paperType: string, id: nat): (r: Result<(PaperKind, Paper)>)
    ensures ParsePaperKind(paperType).None? ==> r.Err? && r.error.Unprocessable?
    ensures ParsePaperKind(paperType).Some? ==>
              var t := store.Table(ParsePaperKind(paperType).value);
              (r.Err? <==> Find(t, id).None?)
              && (r.Err? ==> r.error == NotFound("论文不存在"))
              && (r.Ok? ==> r.value == (ParsePaperKind(paperType).value, Find(t, id).value))
  {
    match ParsePaperKind(paperType)
    case None => Err(Unprocessable("paper_type"))
    case Some(kind) =>
      match Find(store.Table(kind), id)
      case None => Err(NotFound("论文不存在"))
      case Some(p) => Ok((kind, p))
  }

  /** `get_paper`: 404 for a missing paper, then 403 unless `can_access_paper` holds. */
  function GetPaper(store: PaperStore, paperType: string, id: nat, user: User): (r: Result<Paper>)
    ensures Lookup(store, paperType, id).Err? ==> r == Err(Lookup(store, paperType, id).error)
    ensures Lookup(store, paperType, id).Ok? ==>
              var p := Lookup(store, paperType, id).value.1;
              (r.Ok? <==> CanAccessPaper(user, p.authorId))
              && (r.Ok? ==> r.value == p)
              && (r.Err? ==> r.error == Forbidden("无权访问该论文"))
    ensures r.Ok? ==> r.value.id == id && r.value in store.Table(ParsePaperKind(paperType).value)
  {
    var (kind, p) :- Lookup(store, paperType, id);
    if !CanAccessPaper(user, p.authorId) then Err(Forbidden("无权访问该论文")) else Ok(p)
  }

  /** `delete_paper`: 404 first; then only the author or an administrator removes the row. */
  function DeletePaper(store: PaperStore, paperType: string, id: nat, user: User): (r: Result<(PaperStore, Message)>)
    ensures Lookup(store, paperType, id).Err? ==> r == Err(Lookup(store, paperType, id).error)
    ensures Lookup(store, paperType, id).Ok? ==>
              var p := Lookup(store, paperType, id).value.1;
              (r.Ok? <==> p.authorId == user.id || user.role == Admin)
              && (r.Err? ==> r.error == Forbidden("无权删除该论文"))
    ensures r.Ok? ==>
              var kind := ParsePaperKind(paperType).value;
              r.value.0.Table(kind) == Without(store.Table(kind), id)
              && (forall k: PaperKind :: k != kind ==> r.value.0.Table(k) == store.Table(k))
              && r.value.1 == Msg("论文删除成功")
  {
    var (kind, p) :- Lookup(store, paperType, id);
    if p.authorId != user.id && !HasMinimumRole(user, Admin) then Err(Forbidden("无权删除该论文"))
    else Ok((store.Put(kind, Without(store.Table(kind), id)), Msg("论文删除成功")))
  }

  /**
   * The store reads back what the handlers wrote: the author gets the paper
   * they just uploaded and finds it in their unfiltered listing; after a
   * delete the paper is gone for everyone; and a teacher without a status
   * filter lists every row of both tables, graduation first.
   */
  lemma StoreLaws(store: PaperStore, kind: PaperKind, form: UploadForm, user: User,
                  storage: string, timestamp: string, digest: string,
                  paperType: string, id: nat, reader: User)
    ensures var r := Upload(store, kind, form, user, storage, timestamp, digest);
            r.Ok? ==> GetPaper(r.value.0, kind.Value(), r.value.1.id, user) == Ok(r.value.1)
                      && ItemOf(r.value.1, kind) in Listing(r.value.0, user, None, None)
    ensures DeletePaper(store, paperType, id, user).Ok? ==>
              GetPaper(DeletePaper(store, paperType, id, user).value.0, paperType, id, reader) == Err(NotFound("论文不存在"))
    ensures HasMinimumRole(user, Teacher) ==>
              Listing(store, user, None, None) == Items(store.graduation, Graduation) + Items(store.course, Course)
  {
    var r := Upload(store, kind, form, user, storage, timestamp, digest);
    if r.Ok? {
      var (s, p) := r.value;
      FindAppended(store.Table(kind), p);
      assert ParsePaperKind(kind.Value()) == Some(kind);
      assert p in s.Table(kind);
    }
    if DeletePaper(store, paperType, id, user).Ok? {
      var k := ParsePaperKind(paperType).value;
      var t := Without(store.Table(k), id);
      assert forall i :: 0 <= i < |t| ==> t[i].id != id by {
        forall i | 0 <= i < |t| ensures t[i].id != id {
          assert t[i] in t;
        }
      }
    }
  }
}
