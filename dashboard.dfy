/** The task dashboard: the task list from the server, newest first, shown one page of cards at
    a time with a button per page and a choice of page size. */
module Dashboard {
  import opened Common
  import opened ServerTasks

  /** The sort key: `new Date(task.date)`; a missing date is `new Date(null)`, the epoch. */
  function DateKey(t: TaskRecord): Day
  {
    match t.header.date
    case None => 0
    case Some(d) => d
  }

  /** The order of `sort((a, b) => new Date(b.date) - new Date(a.date))`: latest date first. */
  predicate NewestFirst(s: seq<TaskRecord>)
  {
    forall p, q :: 0 <= p < q < |s| ==> DateKey(s[p]) >= DateKey(s[q])
  }

  /** `Array.prototype.sort` on the fetched array, in place: an insertion sort by adjacent swaps. */
  method SortNewestFirst(a: array<TaskRecord>)
    modifies a
    ensures NewestFirst(a[..])
    ensures multiset(a[..]) == multiset(old(a[..]))
  {
    var i := 0;
    while i < a.Length
      invariant 0 <= i <= a.Length
      invariant forall p, q :: 0 <= p < q < i ==> DateKey(a[p]) >= DateKey(a[q])
      invariant multiset(a[..]) == multiset(old(a[..]))
    {
      InsertLast(a, i);
      i := i + 1;
    }
  }

  /** One insertion step: a[i] moves left past every later-dated card, so that a[..i + 1], whose
      first i cards were in order, is in order. */
  method InsertLast(a: array<TaskRecord>, i: nat)
    requires i < a.Length
    requires forall p, q :: 0 <= p < q < i ==> DateKey(a[p]) >= DateKey(a[q])
    modifies a
    ensures forall p, q :: 0 <= p < q <= i ==> DateKey(a[p]) >= DateKey(a[q])
    ensures multiset(a[..]) == multiset(old(a[..]))
  {
    var j := i;
    while j > 0 && DateKey(a[j - 1]) < DateKey(a[j])
      invariant 0 <= j <= i
      invariant OrderedAround(a[..], i, j)
      invariant multiset(a[..]) == multiset(old(a[..]))
    {
      ghost var s := a[..];
      a[j - 1], a[j] := a[j], a[j - 1];
      assert a[..] == s[j - 1 := s[j]][j := s[j - 1]];
      SwapKeepsOrder(s, i, j);
      j := j - 1;
    }
    OrderedAroundDone(a[..], i, j);
  }

  /** While a card sinks at position j: the cards up to i other than it are in order, and it is
      no later than any card after it. */
  predicate OrderedAround(s: seq<TaskRecord>, i: nat, j: nat)
    requires j <= i < |s|
  {
    && (forall p, q :: 0 <= p < q <= i && p != j && q != j ==> DateKey(s[p]) >= DateKey(s[q]))
    && (forall q :: j < q <= i ==> DateKey(s[j]) >= DateKey(s[q]))
  }

  lemma SwapKeepsOrder(s: seq<TaskRecord>, i: nat, j: nat)
    requires 0 < j <= i < |s| && OrderedAround(s, i, j) && DateKey(s[j - 1]) < DateKey(s[j])
    ensures OrderedAround(s[j - 1 := s[j]][j := s[j - 1]], i, j - 1)
    ensures multiset(s[j - 1 := s[j]][j := s[j - 1]]) == multiset(s)
  {
    var t := s[j - 1 := s[j]][j := s[j - 1]];
    forall p, q | 0 <= p < q <= i && p != j - 1 && q != j - 1
      ensures DateKey(t[p]) >= DateKey(t[q])
    {
      if q == j {
        assert t[q] == s[j - 1];
      } else if p == j {
        assert DateKey(s[j - 1]) >= DateKey(s[q]);
      }
    }
  }

  lemma OrderedAroundDone(s: seq<TaskRecord>, i: nat, j: nat)
    requires j <= i < |s| && OrderedAround(s, i, j)
    requires j == 0 || DateKey(s[j - 1]) >= DateKey(s[j])
    ensures forall p, q :: 0 <= p < q <= i ==> DateKey(s[p]) >= DateKey(s[q])
  {
    forall p, q | 0 <= p < q <= i ensures DateKey(s[p]) >= DateKey(s[q]) {
      if q == j && p < j - 1 {
        assert DateKey(s[p]) >= DateKey(s[j - 1]);
      }
    }
  }

  /** `Array.prototype.slice(start, end)`: a negative bound counts from the end, and both are
      clamped to the array. */
  function JsSlice<T>(s: seq<T>, start: int, end: int): seq<T>
  {
    var from := if start < 0 then (if |s| + start < 0 then 0 else |s| + start)
                else (if start > |s| then |s| else start);
    var to := if end < 0 then (if |s| + end < 0 then 0 else |s| + end)
              else (if end > |s| then |s| else end);
    if from < to then s[from..to] else []
  }

  /** The cards on page p: `tasks.slice(p * n - n, p * n)`. */
  function Page<T>(tasks: seq<T>, p: int, n: int): seq<T>
  {
    JsSlice(tasks, p * n - n, p * n)
  }

  /** `Math.ceil(tasks.length / tasksPerPage)`. */
  function TotalPages(count: nat, n: nat): (t: nat)
    requires n >= 1
    ensures (t - 1) * n < count <= t * n || (count == 0 && t == 0)
  {
    (count + n - 1) / n
  }

  /** The buttons under the cards, labelled 1 to the number of pages. */
  function PageButtons(total: nat): (r: seq<nat>)
    ensures |r| == total
    ensures forall k :: 0 <= k < total ==> r[k] == k + 1
  {
    seq(total, k requires 0 <= k < total => k + 1)
  }

  /** The buttons are exactly the page numbers 1 to the number of pages, in order. */
  lemma ButtonsArePages(tasks: seq<TaskRecord>, n: nat)
    requires n >= 1
    ensures forall p :: p in PageButtons(TotalPages(|tasks|, n)) <==> 1 <= p <= TotalPages(|tasks|, n)
  {
    var bs := PageButtons(TotalPages(|tasks|, n));
    forall p | 1 <= p <= TotalPages(|tasks|, n) ensures p in bs {
      assert bs[p - 1] == p;
    }
  }

  /** The run of up to n cards from index lo, cut at the end of the list. */
  function Window<T>(tasks: seq<T>, lo: int, n: nat): seq<T>
    requires lo >= 0
  {
    if lo >= |tasks| then [] else tasks[lo .. if lo + n > |tasks| then |tasks| else lo + n]
  }

  /** Page p (from the first on) is the run of cards from index (p - 1) * n, n long, cut at
      the end of the list. */
  lemma PageIsWindow<T>(tasks: seq<T>, p: int, n: nat)
    requires p >= 1 && n >= 1
    ensures (p - 1) * n >= |tasks| ==> Page(tasks, p, n) == []
    ensures (p - 1) * n < |tasks| ==>
              Page(tasks, p, n)
              == tasks[(p - 1) * n .. if (p - 1) * n + n > |tasks| then |tasks| else (p - 1) * n + n]
    ensures Page(tasks, p, n) == Window(tasks, (p - 1) * n, n)
  {
    assert p * n == (p - 1) * n + n;
    MultiplyMonotone(0, p - 1, n);
  }

  /** Where page p starts relative to the end of the list, given the number of pages. */
  lemma PageStart(count: nat, p: int, n: nat)
    requires p >= 1 && n >= 1
    ensures p < TotalPages(count, n) ==> (p - 1) * n + n <= count
    ensures p == TotalPages(count, n) ==> (p - 1) * n < count
    ensures p > TotalPages(count, n) ==> (p - 1) * n >= count
  {
    var t := TotalPages(count, n);
    assert (p - 1) * n + n == p * n;
    if p < t {
      MultiplyMonotone(p, t - 1, n);
    } else if p > t {
      MultiplyMonotone(t, p - 1, n);
    }
  }

  /** No page holds more than n cards; every page before the last is full; the last is never
      empty; and a page past the last is empty. */
  lemma PageSizes<T>(tasks: seq<T>, p: int, n: nat)
    requires p >= 1 && n >= 1
    ensures |Page(tasks, p, n)| <= n
    ensures p < TotalPages(|tasks|, n) ==> |Page(tasks, p, n)| == n
    ensures p == TotalPages(|tasks|, n) ==> |Page(tasks, p, n)| > 0
    ensures p > TotalPages(|tasks|, n) ==> Page(tasks, p, n) == []
  {
    var lo, t := (p - 1) * n, TotalPages(|tasks|, n);
    PageIsWindow(tasks, p, n);
    PageStart(|tasks|, p, n);
    MultiplyMonotone(0, p - 1, n);
    WindowSizes(tasks, p, lo, n, t);
  }

  /** PageSizes for the window of page p, which starts at lo, out of t pages. */
  lemma WindowSizes<T>(tasks: seq<T>, p: int, lo: int, n: nat, t: nat)
    requires lo >= 0 && n >= 1
    requires p < t ==> lo + n <= |tasks|
    requires p == t ==> lo < |tasks|
    requires p > t ==> lo >= |tasks|
    ensures |Window(tasks, lo, n)| <= n
    ensures p < t ==> |Window(tasks, lo, n)| == n
    ensures p == t ==> |Window(tasks, lo, n)| > 0
    ensures p > t ==> Window(tasks, lo, n) == []
  {
  }

  lemma MultiplyMonotone(x: int, y: int, n: nat)
    requires x <= y
    ensures x * n <= y * n
  {
    assert y * n - x * n == (y - x) * n;
  }

  lemma CardOnPage<T>(tasks: seq<T>, i: nat, n: nat, q: nat, r: nat)
    requires i < |tasks| && n >= 1 && i == q * n + r && r < n
    ensures r < |Page(tasks, q + 1, n)| && Page(tasks, q + 1, n)[r] == tasks[i]
  {
    var lo := q * n;
    PageIsWindow(tasks, q + 1, n);
    assert (q + 1 - 1) * n == lo;
    MultiplyMonotone(0, q, n);
    CardInWindow(tasks, lo, n, r);
  }

  lemma CardInWindow<T>(tasks: seq<T>, lo: int, n: nat, r: nat)
    requires lo >= 0 && r < n && lo + r < |tasks|
    ensures r < |Window(tasks, lo, n)| && Window(tasks, lo, n)[r] == tasks[lo + r]
  {
  }

  /** Card i of the list is on page i / n + 1, at position i % n. */
  lemma PageOfIndex<T>(tasks: seq<T>, i: nat, n: nat)
    requires i < |tasks| && n >= 1
    ensures i % n < |Page(tasks, i / n + 1, n)|
    ensures Page(tasks, i / n + 1, n)[i % n] == tasks[i]
  {
    CardOnPage(tasks, i, n, i / n, i % n);
  }

  /** The concatenation of pages 1 to k. */
  function Pages<T>(tasks: seq<T>, n: nat, k: nat): seq<T>
  {
    if k == 0 then [] else Pages(tasks, n, k - 1) + Page(tasks, k, n)
  }

  /** Pages 1 to k together are the first k * n cards (or all of them). */
  lemma {:induction false} PagesPrefix<T>(tasks: seq<T>, n: nat, k: nat)
    requires n >= 1
    ensures Pages(tasks, n, k) == tasks[..if k * n > |tasks| then |tasks| else k * n]
  {
    if k > 0 {
      var lo := (k - 1) * n;
      PagesPrefix(tasks, n, k - 1);
      PageIsWindow(tasks, k, n);
      MultiplyMonotone(0, k - 1, n);
      assert k * n == lo + n;
      PrefixThenWindow(tasks, lo, n);
    }
  }

  /** The first lo cards followed by the window from lo are the first lo + n cards. */
  lemma PrefixThenWindow<T>(tasks: seq<T>, lo: int, n: nat)
    requires lo >= 0
    ensures tasks[..if lo > |tasks| then |tasks| else lo] + Window(tasks, lo, n)
            == tasks[..if lo + n > |tasks| then |tasks| else lo + n]
  {
    if lo < |tasks| {
      var hi := if lo + n > |tasks| then |tasks| else lo + n;
      assert tasks[..lo] + tasks[lo..hi] == tasks[..hi];
    }
  }

  /** Reading the pages in button order shows every card once, in list order. */
  lemma AllPagesShowAll<T>(tasks: seq<T>, n: nat)
    requires n >= 1
    ensures Pages(tasks, n, TotalPages(|tasks|, n)) == tasks
  {
    PagesPrefix(tasks, n, TotalPages(|tasks|, n));
  }

  /** The page sizes the selector offers. */
  const PageSizeOptions: set<nat> := {5, 10, 20}

  class DashboardView {
    var tasks: seq<TaskRecord>
    var currentPage: int
    var tasksPerPage: nat

    /** The page number is at least 1 and the page size is one the selector offers. */
    ghost predicate Valid()
      reads this
    {
      currentPage >= 1 && tasksPerPage in PageSizeOptions
    }

    constructor ()
      ensures Valid() && tasks == [] && currentPage == 1 && tasksPerPage == 10
    {
      tasks, currentPage, tasksPerPage := [], 1, 10;
    }

    /** The cards shown. */
    function CurrentTasks(): seq<TaskRecord>
      reads this
    {
      Page(tasks, currentPage, tasksPerPage)
    }

    /** The fetch on mount: the server's list, sorted in place, becomes the list. */
    method Load(data: array<TaskRecord>)
      requires Valid()
      modifies this, data
      ensures Valid()
      ensures tasks == data[..] && NewestFirst(tasks) && multiset(tasks) == multiset(old(data[..]))
      ensures currentPage == old(currentPage) && tasksPerPage == old(tasksPerPage)
    {
      SortNewestFirst(data);
      tasks := data[..];
    }

    /** handlePageChange: the clicked button's number becomes the page. */
    method PageChange(pageNumber: int)
      requires Valid()
      requires pageNumber in PageButtons(TotalPages(|tasks|, tasksPerPage))
      modifies this
      ensures Valid()
      ensures currentPage == pageNumber && tasks == old(tasks) && tasksPerPage == old(tasksPerPage)
      ensures 0 < |CurrentTasks()| <= tasksPerPage
    {
      var bs := PageButtons(TotalPages(|tasks|, tasksPerPage));
      var k :| 0 <= k < |bs| && bs[k] == pageNumber;
      currentPage := pageNumber;
      PageSizes(tasks, currentPage, tasksPerPage);
    }

    /** handleTasksPerPageChange: a new size, and back to the first page, which then shows the
        first cards of the list. */
    method TasksPerPageChange(value: nat)
      requires Valid() && value in PageSizeOptions
      modifies this
      ensures Valid()
      ensures tasksPerPage == value && currentPage == 1 && tasks == old(tasks)
      ensures CurrentTasks() == tasks[..if value > |tasks| then |tasks| else value]
    {
      tasksPerPage := value;
      currentPage := 1;
      PageIsWindow(tasks, 1, value);
    }
  }
}
