/**
 * The paper tables: graduation and course papers share one record shape
 * (course papers also carry a course and a semester), a status enum, and a
 * store kept in query order.
 */
module PaperModel {
  import opened Common

  datatype PaperStatus = Draft | Submitted | Checking | Checked | Approved | Rejected {
    function Value(): string {
      match this
      case Draft => "draft"
      case Submitted => "submitted"
      case Checking => "checking"
      case Checked => "checked"
      case Approved => "approved"
      case Rejected => "rejected"
    }
  }

  /** `PaperStatus(s)`: the status whose value is `s`, if any. */
  function ParsePaperStatus(s: string): (r: Option<PaperStatus>)
    ensures r.Some? ==> r.value.Value() == s
    ensures r.None? ==> forall st: PaperStatus :: st.Value() != s
  {
    if s == "draft" then Some(Draft)
    else if s == "submitted" then Some(Submitted)
    else if s == "checking" then Some(Checking)
    else if s == "checked" then Some(Checked)
    else if s == "approved" then Some(Approved)
    else if s == "rejected" then Some(Rejected)
    else None
  }

  /** The two paper tables, named as the `paper_type` strings name them. */
  datatype PaperKind = Graduation | Course {
    function Value(): string {
      match this
      case Graduation => "graduation"
      case Course => "course"
    }
  }

  /** The `^(graduation|course)$` pattern: exactly the two kind names pass. */
  function ParsePaperKind(s: string): (r: Option<PaperKind>)
    ensures r.Some? ==> r.value.Value() == s
    ensures r.None? ==> forall k: PaperKind :: k.Value() != s
  {
    if s == "graduation" then Some(Graduation)
    else if s == "course" then Some(Course)
    else None
  }

  datatype Paper = Paper(
    id: nat,
    title: string,
    authorId: nat,
    supervisorId: Option<nat>,
    course: Option<string>,
    semester: Option<string>,
    filePath: string,
    fileFormat: string,
    fileSize: nat,
    status: PaperStatus,
    department: Option<string>,
    major: Option<string>)

  /** One table, in the order the database returns its rows. */
  type PaperTable = seq<Paper>

  /** Both tables. */
  datatype PaperStore = PaperStore(graduation: PaperTable, course: PaperTable) {
    function Table(kind: PaperKind): PaperTable {
      match kind
      case Graduation => graduation
      case Course => course
    }

    /** The store with table `kind` replaced. */
    function Put(kind: PaperKind, t: PaperTable): (s: PaperStore)
      ensures s.Table(kind) == t
      ensures forall k: PaperKind :: k != kind ==> s.Table(k) == Table(k)
    {
      match kind
      case Graduation => this.(graduation := t)
      case Course => this.(course := t)
    }
  }

  /** The id a table's autoincrement hands out next: one past the largest id in use. */
  function NextPaperId(table: PaperTable): (n: nat)
    ensures forall i :: 0 <= i < |table| ==> table[i].id < n
    decreases |table|
  {
    if |table| == 0 then 1
    else Max(table[0].id + 1, NextPaperId(table[1..]))
  }

  /** A row appended under an id the table does not use is what a lookup of that id finds. */
  lemma {:induction false} FindAppended(table: PaperTable, p: Paper)
    requires forall i :: 0 <= i < |table| ==> table[i].id != p.id
    ensures Find(table + [p], p.id) == Some(p)
    decreases |table|
  {
    if |table| > 0 {
      assert (table + [p])[1..] == table[1..] + [p];
      FindAppended(table[1..], p);
    }
  }

  /** `select ... where id == paper_id` followed by `scalar_one_or_none`, on a table whose ids are distinct. */
  function Find(table: PaperTable, id: nat): (r: Option<Paper>)
    ensures r.Some? ==> r.value in table && r.value.id == id
    ensures r.None? <==> forall i :: 0 <= i < |table| ==> table[i].id != id
    decreases |table|
  {
    if |table| == 0 then None
    else if table[0].id == id then Some(table[0])
    else Find(table[1..], id)
  }

  /** The table without the rows carrying `id`. */
  function Without(table: PaperTable, id: nat): (r: PaperTable)
    ensures forall p :: p in r <==> p in table && p.id != id
    ensures |r| <= |table|
    decreases |table|
  {
    if |table| == 0 then []
    else if table[0].id == id then Without(table[1..], id)
    else [table[0]] + Without(table[1..], id)
  }
}
