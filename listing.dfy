/** `GET /tasks`: the caller's tasks, optionally filtered by status, one page
    at a time, with the number of matching tasks and of pages. */
module Listing {
  import opened Wrappers
  import opened Seqs
  import opened Schema

  /** The query string after `parseInt`: `None` stands for `NaN` (absent or
      not a number). */
  datatype ListQuery = ListQuery(perPage: Option<int>, page: Option<int>, statusFilter: Option<string>)

  /** The JSON body `{ tasks, total, totalPages }`. */
  datatype ListReply = ListReply(tasks: seq<Task>, total: nat, totalPages: int)

  const DefaultPerPage: int := 4
  const DefaultPage: int := 1

  /** `parseInt(x) || fallback`: `NaN` and `0` are falsy. */
  function IntOr(v: Option<int>, fallback: int): int {
    if v.Some? && v.value != 0 then v.value else fallback
  }

  function PerPage(q: ListQuery): int {
    IntOr(q.perPage, DefaultPerPage)
  }

  function Page(q: ListQuery): int {
    IntOr(q.page, DefaultPage)
  }

  /** `offset = (page - 1) * perPage`. */
  function Offset(q: ListQuery): int {
    (Page(q) - 1) * PerPage(q)
  }

  /** The WHERE clause: `user_id = ?`, and `status = ?` unless the filter is
      exactly `'All'`. A missing filter is bound as NULL, which no row equals. */
  predicate Selected(t: Task, userId: nat, statusFilter: Option<string>) {
    t.userId == userId && (statusFilter == Some("All") || (statusFilter.Some? && t.status == statusFilter.value))
  }

  /** The rows the WHERE clause selects, in row order (the queries have no ORDER BY). */
  function Matching(rows: seq<Task>, userId: nat, statusFilter: Option<string>): (r: seq<Task>)
    ensures forall t :: t in r <==> t in rows && Selected(t, userId, statusFilter)
    ensures Subsequence(r, rows)
  {
    Filter(rows, t => Selected(t, userId, statusFilter))
  }

  /** SQLite's `LIMIT limit OFFSET offset`: a negative offset counts as 0 and
      a negative limit as no limit. */
  function Window<T>(rows: seq<T>, limit: int, offset: int): (r: seq<T>)
    ensures limit >= 0 ==> |r| <= limit
    ensures offset >= |rows| ==> r == []
    ensures var start := if offset < 0 then 0 else if offset > |rows| then |rows| else offset;
      |r| == if limit < 0 || start + limit > |rows| then |rows| - start else limit
    ensures var start := if offset < 0 then 0 else offset;
      forall i :: 0 <= i < |r| ==> start + i < |rows| && r[i] == rows[start + i]
  {
    var start := if offset <= 0 then 0 else if offset >= |rows| then |rows| else offset;
    var end := if limit < 0 || start + limit >= |rows| then |rows| else start + limit;
    rows[start..end]
  }

  /** `Math.ceil(n / d)` for a non-zero integer divisor. */
  function CeilDiv(n: nat, d: int): (r: int)
    requires d != 0
    ensures d > 0 ==> r >= 0 && (r - 1) * d < n <= r * d
    ensures d < 0 ==> r <= 0 && r * d <= n < (r - 1) * d
  {
    if d > 0 then (n + d - 1) / d else -(n / -d)
  }

  /** The handler, after the middleware has resolved `userId`. */
  function ListTasks(rows: seq<Task>, userId: nat, q: ListQuery): (r: ListReply)
    ensures r.total == |Matching(rows, userId, q.statusFilter)|
    ensures forall t :: t in r.tasks ==> t in rows && Selected(t, userId, q.statusFilter)
    ensures PerPage(q) > 0 ==> |r.tasks| <= PerPage(q)
    ensures r.tasks == Window(Matching(rows, userId, q.statusFilter), PerPage(q), Offset(q))
    ensures r.totalPages == CeilDiv(r.total, PerPage(q))
  {
    var matching := Matching(rows, userId, q.statusFilter);
    ListReply(Window(matching, PerPage(q), Offset(q)), |matching|, CeilDiv(|matching|, PerPage(q)))
  }

  /** The query for page `page` with `perPage` rows per page. */
  function PageQuery(perPage: int, page: int, statusFilter: Option<string>): ListQuery {
    ListQuery(Some(perPage), Some(page), statusFilter)
  }

  /** Each of `perPage` and `page` that is absent, not a number or 0 is
      replaced by its own default, 4 and 1, whatever the other one is. */
  lemma DefaultsWhenMissing(rows: seq<Task>, userId: nat, perPage: Option<int>, page: Option<int>, statusFilter: Option<string>)
    ensures ListTasks(rows, userId, ListQuery(perPage, page, statusFilter)) ==
      ListTasks(rows, userId, PageQuery(if perPage.None? || perPage == Some(0) then 4 else perPage.value,
                                        if page.None? || page == Some(0) then 1 else page.value, statusFilter))
  {
  }

  /** Pages 1 to `k`, fetched one after the other and concatenated. */
  ghost function PagesUpTo(rows: seq<Task>, userId: nat, statusFilter: Option<string>, perPage: int, k: nat): seq<Task>
  {
    if k == 0 then []
    else PagesUpTo(rows, userId, statusFilter, perPage, k - 1) + ListTasks(rows, userId, PageQuery(perPage, k, statusFilter)).tasks
  }

  /** Windows 1 to `k` of `perPage` rows each over `m`, concatenated. */
  ghost function Windows<T>(m: seq<T>, perPage: int, k: nat): seq<T>
  {
    if k == 0 then [] else Windows(m, perPage, k - 1) + Window(m, perPage, (k - 1) * perPage)
  }

  function Min(a: int, b: int): int {
    if a <= b then a else b
  }

  /** A window of a positive size at a non-negative offset is a slice. */
  lemma WindowSlice<T>(rows: seq<T>, limit: int, offset: int)
    requires limit > 0 && offset >= 0
    ensures Window(rows, limit, offset) == rows[Min(offset, |rows|)..Min(offset + limit, |rows|)]
  {
  }

  lemma MulStep(k: nat, p: int)
    requires k > 0
    ensures (k - 1) * p + p == k * p
  {
  }

  lemma MulMonotone(a: int, b: int, p: int)
    requires a <= b && p > 0
    ensures a * p <= b * p
  {
  }

  /** Windows 1 to `k` are the first `k * perPage` rows. */
  lemma {:induction false} WindowsPrefix<T>(m: seq<T>, perPage: int, k: nat)
    requires perPage > 0
    ensures k * perPage >= 0
    ensures Windows(m, perPage, k) == m[..Min(k * perPage, |m|)]
  {
    MulMonotone(0, k, perPage);
    if k > 0 {
      var o := (k - 1) * perPage;
      MulMonotone(0, k - 1, perPage);
      MulStep(k, perPage);
      var lo, hi := Min(o, |m|), Min(k * perPage, |m|);
      var earlier, w := Windows(m, perPage, k - 1), Window(m, perPage, o);
      assert earlier == m[..lo] by {
        WindowsPrefix(m, perPage, k - 1);
      }
      assert w == m[lo..hi] by {
        WindowSlice(m, perPage, o);
      }
      assert m[..lo] + m[lo..hi] == m[..hi];
    }
  }

  /** Fetching pages 1 to `k` gives windows 1 to `k` of the matching rows. */
  lemma {:induction false} PagesAreWindows(rows: seq<Task>, userId: nat, statusFilter: Option<string>, perPage: int, k: nat)
    requires perPage > 0
    ensures PagesUpTo(rows, userId, statusFilter, perPage, k) == Windows(Matching(rows, userId, statusFilter), perPage, k)
  {
    if k > 0 {
      var m := Matching(rows, userId, statusFilter);
      var earlier, page := PagesUpTo(rows, userId, statusFilter, perPage, k - 1),
        ListTasks(rows, userId, PageQuery(perPage, k, statusFilter)).tasks;
      assert earlier == Windows(m, perPage, k - 1) by {
        PagesAreWindows(rows, userId, statusFilter, perPage, k - 1);
      }
      assert page == Window(m, perPage, (k - 1) * perPage) by {
        PageIsWindow(rows, userId, statusFilter, perPage, k);
      }
      assert PagesUpTo(rows, userId, statusFilter, perPage, k) == earlier + page;
    }
  }

  /** Page `k` is the window at `(k - 1) * perPage`. */
  lemma PageIsWindow(rows: seq<Task>, userId: nat, statusFilter: Option<string>, perPage: int, k: nat)
    requires perPage > 0 && k > 0
    ensures ListTasks(rows, userId, PageQuery(perPage, k, statusFilter)).tasks ==
      Window(Matching(rows, userId, statusFilter), perPage, (k - 1) * perPage)
  {
    assert Offset(PageQuery(perPage, k, statusFilter)) == (k - 1) * perPage;
  }

  /** Paging through pages 1 to `totalPages` with a positive page size returns
      every matching task exactly once, in order. */
  lemma PaginationPartition(rows: seq<Task>, userId: nat, statusFilter: Option<string>, perPage: int)
    requires perPage > 0
    ensures var n := ListTasks(rows, userId, PageQuery(perPage, 1, statusFilter)).totalPages;
      n >= 0 && PagesUpTo(rows, userId, statusFilter, perPage, n) == Matching(rows, userId, statusFilter)
  {
    var n := ListTasks(rows, userId, PageQuery(perPage, 1, statusFilter)).totalPages;
    PagesAreWindows(rows, userId, statusFilter, perPage, n);
    WindowsPrefix(Matching(rows, userId, statusFilter), perPage, n);
  }

  /** A positive page size past the last page gives an empty page. */
  lemma PageBeyondLast(rows: seq<Task>, userId: nat, q: ListQuery)
    requires PerPage(q) > 0
    requires Page(q) > ListTasks(rows, userId, q).totalPages
    ensures ListTasks(rows, userId, q).tasks == []
  {
    var r := ListTasks(rows, userId, q);
    MulMonotone(r.totalPages, Page(q) - 1, PerPage(q));
    assert Offset(q) >= r.total;
  }

  /** With the filter `'All'`, `total` counts every task of the caller. */
  lemma AllCountsOwnTasks(rows: seq<Task>, userId: nat, q: ListQuery)
    requires q.statusFilter == Some("All")
    ensures ListTasks(rows, userId, q).total == |Filter(rows, (t: Task) => t.userId == userId)|
  {
    FilterSame(rows, t => Selected(t, userId, q.statusFilter), (t: Task) => t.userId == userId);
  }

  /** With no `statusFilter` at all the filtered query runs with NULL: nothing
      is counted and nothing is returned. */
  lemma MissingFilterFindsNothing(rows: seq<Task>, userId: nat, q: ListQuery)
    requires q.statusFilter.None?
    ensures ListTasks(rows, userId, q).total == 0
    ensures ListTasks(rows, userId, q).tasks == []
  {
    FilterNone(rows, t => Selected(t, userId, q.statusFilter));
  }
}
