/**
 * The shared response and query shapes: the generic message body, the
 * pagination query bounds, and the page a paginated listing returns.
 */
module CommonSchemas {
  import opened Common

  /** `Message`: a text and a code that defaults to 200. */
  datatype Message = Message(message: string, code: int)

  const DefaultMessageCode: int := 200

  /** A message body with the default code. */
  function Msg(text: string): Message {
    Message(text, DefaultMessageCode)
  }

  const DefaultPage: int := 1
  const DefaultPageSize: int := 20
  const MaxPageSize: int := 100

  /** Validated pagination parameters. */
  datatype PaginationParams = PaginationParams(page: nat, pageSize: nat)

  /** `PaginationParams`: `page >= 1` and `1 <= page_size <= 100`; anything else is a 422. */
  function ValidatePagination(page: int, pageSize: int): (r: Result<PaginationParams>)
    ensures r.Ok? <==> page >= 1 && 1 <= pageSize <= MaxPageSize
    ensures r.Ok? ==> r.value.page == page && r.value.pageSize == pageSize
    ensures r.Err? ==> r.error.Unprocessable?
  {
    if page < 1 then Err(Unprocessable("page"))
    else if pageSize < 1 || pageSize > MaxPageSize then Err(Unprocessable("page_size"))
    else Ok(PaginationParams(page, pageSize))
  }

  /** `PaginatedResponse`. */
  datatype PaginatedResponse<T> = PaginatedResponse(total: nat, page: nat, pageSize: nat, totalPages: nat, items: seq<T>)

  /** `(total + page_size - 1) // page_size`: the least page count whose pages hold every item. */
  function PageCount(total: nat, size: nat): (n: nat)
    requires size >= 1
    ensures n * size >= total
    ensures n == 0 || (n - 1) * size < total
  {
    var n := (total + size - 1) / size;
    assert n * size + (total + size - 1) % size == total + size - 1;
    n
  }

  /** `items[(page-1)*size : page*size]`, Python slicing: both ends clamp to the list. */
  function PageItems<T>(all: seq<T>, page: nat, size: nat): (items: seq<T>)
    requires page >= 1
    ensures |items| <= size
    ensures (page - 1) * size >= |all| ==> items == []
    ensures page * size <= |all| ==> |items| == size
    ensures forall k :: 0 <= k < |items| ==> (page - 1) * size + k < |all| && items[k] == all[(page - 1) * size + k]
  {
    assert (page - 1) * size + size == page * size;
    all[Min((page - 1) * size, |all|)..Min(page * size, |all|)]
  }

  /** The response for one page of `all`. */
  function Paginate<T>(all: seq<T>, p: PaginationParams): PaginatedResponse<T>
    requires p.page >= 1 && p.pageSize >= 1
  {
    PaginatedResponse(|all|, p.page, p.pageSize, PageCount(|all|, p.pageSize), PageItems(all, p.page, p.pageSize))
  }

  /** Pages 1 to `n`, one after the other. */
  function Pages<T>(all: seq<T>, size: nat, n: nat): seq<T>
    requires size >= 1
  {
    if n == 0 then [] else Pages(all, size, n - 1) + PageItems(all, n, size)
  }

  /** The first `n` pages are the list up to the end of page `n`. */
  lemma {:induction false} PagesArePrefix<T>(all: seq<T>, size: nat, n: nat)
    requires size >= 1
    ensures Pages(all, size, n) == all[..Min(n * size, |all|)]
  {
    if n > 0 {
      PagesArePrefix(all, size, n - 1);
      assert (n - 1) * size + size == n * size;
      var a := Min((n - 1) * size, |all|);
      var b := Min(n * size, |all|);
      assert all[..a] + all[a..b] == all[..b];
    }
  }

  /** Reading every page in order gives back the whole list, with nothing repeated or lost. */
  lemma PagesCoverList<T>(all: seq<T>, size: nat)
    requires size >= 1
    ensures Pages(all, size, PageCount(|all|, size)) == all
  {
    PagesArePrefix(all, size, PageCount(|all|, size));
  }

  /** The defaults, page 1 of 20, pass their own bounds, and a page past the last one is empty. */
  lemma PaginationLaws<T>(all: seq<T>, page: nat, size: nat)
    ensures ValidatePagination(DefaultPage, DefaultPageSize) == Ok(PaginationParams(1, 20))
    ensures size >= 1 && page > PageCount(|all|, size) ==> PageItems(all, page, size) == []
  {
    if size >= 1 && page > PageCount(|all|, size) {
      var n := PageCount(|all|, size);
      var d := page - 1 - n;
      assert (page - 1) * size == n * size + d * size;
    }
  }
}
