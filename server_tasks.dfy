/** The `/api/tasks` handlers of the server over an abstract pair of tables: the parent table
    Task and the child table Tasks (one row per task entry, pointing at its parent by task_id). */
module ServerTasks {
  import opened Common

  /** The parent columns; the handler inserts whatever the body holds, missing values included. */
  datatype Header = Header(name: Option<string>, date: Option<Day>, cluster: Option<string>,
                           resourceType: Option<string>)

  /** The entry columns carried by a child row. */
  datatype EntryFields = EntryFields(incCr: Option<string>, product: Option<string>,
                                     taskType: Option<string>, taskDescription: Option<string>,
                                     actualHour: Option<real>, plannerHour: Option<real>)

  /** A row of Task, a row of Tasks. */
  datatype TaskRow = TaskRow(id: nat, header: Header)
  datatype EntryRow = EntryRow(id: nat, taskId: nat, fields: EntryFields)

  /** Both tables with their identity counters. */
  datatype Store = Store(tasks: seq<TaskRow>, entries: seq<EntryRow>, nextTaskId: nat, nextEntryId: nat)

  /** A text reply with its status. */
  datatype Response = Response(status: nat, text: string)

  // ---------------------------------------------------------------------------------------
  // POST /api/tasks

  /** The body: the parent fields and the submitted entries (None when `tasks` is absent). */
  datatype TaskRequest = TaskRequest(header: Header, tasks: Option<seq<EntryFields>>)

  /** The child rows for entries `es` of parent `taskId`, numbered from `firstId`. */
  function ChildRows(taskId: nat, firstId: nat, es: seq<EntryFields>): (r: seq<EntryRow>)
    ensures |r| == |es|
    ensures forall k :: 0 <= k < |es| ==> r[k] == EntryRow(firstId + k, taskId, es[k])
  {
    seq(|es|, k requires 0 <= k < |es| => EntryRow(firstId + k, taskId, es[k]))
  }

  lemma ChildRowsStep(taskId: nat, firstId: nat, es: seq<EntryFields>, i: nat)
    requires i < |es|
    ensures ChildRows(taskId, firstId, es[..i + 1])
            == ChildRows(taskId, firstId, es[..i]) + [EntryRow(firstId + i, taskId, es[i])]
  {
    var a, b := ChildRows(taskId, firstId, es[..i + 1]), ChildRows(taskId, firstId, es[..i]);
    assert |a| == |b| + 1;
    forall k | 0 <= k < |a| ensures a[k] == (b + [EntryRow(firstId + i, taskId, es[i])])[k] {
    }
  }

  /** How many statements of the request succeed before the store fails: the statement numbered
      `failAt` (0 is the parent insert, k + 1 the insert of entry k) raises, if it is reached. */
  function EntriesInserted(failAt: Option<nat>, count: nat): (n: nat)
    ensures n <= count
  {
    if failAt.Some? && 0 < failAt.value <= count then failAt.value - 1 else count
  }

  /** POST /api/tasks: insert the parent, then one child per submitted entry, in order, each with
      the new parent id. The statements are not one transaction: a failure after the parent insert
      leaves the parent and the entries inserted so far, and the reply is 500. An absent entry
      list fails after the parent insert. */
  method CreateTask(store: Store, req: TaskRequest, failAt: Option<nat>) returns (resp: Response, after: Store)
    ensures failAt == Some(0) ==> resp == Response(500, "Error submitting task") && after == store
    ensures failAt != Some(0) ==>
              && after.tasks == store.tasks + [TaskRow(store.nextTaskId, req.header)]
              && after.nextTaskId == store.nextTaskId + 1
    ensures failAt != Some(0) && req.tasks.None? ==>
              && resp == Response(500, "Error submitting task")
              && after.entries == store.entries && after.nextEntryId == store.nextEntryId
    ensures failAt != Some(0) && req.tasks.Some? ==>
              var n := EntriesInserted(failAt, |req.tasks.value|);
              && after.entries == store.entries
                                  + ChildRows(store.nextTaskId, store.nextEntryId, req.tasks.value[..n])
              && after.nextEntryId == store.nextEntryId + n
              && resp == if n == |req.tasks.value|
                         then Response(201, "Task created successfully")
                         else Response(500, "Error submitting task")
  {
    if failAt == Some(0) {
      return Response(500, "Error submitting task"), store;
    }
    var taskId := store.nextTaskId;
    after := store.(tasks := store.tasks + [TaskRow(taskId, req.header)], nextTaskId := taskId + 1);
    if req.tasks.None? {
      return Response(500, "Error submitting task"), after;
    }
    var tasks := req.tasks.value;
    var i := 0;
    while i < |tasks|
      invariant 0 <= i <= |tasks|
      invariant after.tasks == store.tasks + [TaskRow(taskId, req.header)]
      invariant after.nextTaskId == taskId + 1
      invariant after.entries == store.entries + ChildRows(taskId, store.nextEntryId, tasks[..i])
      invariant after.nextEntryId == store.nextEntryId + i
      invariant failAt.Some? ==> failAt.value > i
    {
      if failAt == Some(i + 1) {
        return Response(500, "Error submitting task"), after;
      }
      ChildRowsStep(taskId, store.nextEntryId, tasks, i);
      after := after.(entries := after.entries + [EntryRow(after.nextEntryId, taskId, tasks[i])],
                      nextEntryId := after.nextEntryId + 1);
      i := i + 1;
    }
    assert tasks[..i] == tasks;
    resp := Response(201, "Task created successfully");
  }

  // ---------------------------------------------------------------------------------------
  // GET /api/tasks

  /** One row of `Task LEFT JOIN Tasks`, as the database returns it; the joined rows and their
      order are an input of the grouping. */
  datatype JoinedRow = JoinedRow(taskId: nat, header: Header, entry: EntryFields)

  /** A task record of the reply, with its `tasks` list of entries. */
  datatype TaskRecord = TaskRecord(id: nat, header: Header, tasks: seq<EntryFields>)

  /** One step of the `forEach`: create the record on the id's first row, then push the entry. */
  function AddRow(m: map<nat, TaskRecord>, row: JoinedRow): map<nat, TaskRecord>
  {
    if row.taskId in m
    then m[row.taskId := m[row.taskId].(tasks := m[row.taskId].tasks + [row.entry])]
    else m[row.taskId := TaskRecord(row.taskId, row.header, [row.entry])]
  }

  /** The `tasks` object after the first n rows. */
  function Group(rows: seq<JoinedRow>, n: nat): map<nat, TaskRecord>
    requires n <= |rows|
  {
    if n == 0 then map[] else AddRow(Group(rows, n - 1), rows[n - 1])
  }

  /** One more than the largest task id among the first n rows. */
  function Bound(rows: seq<JoinedRow>, n: nat): (b: nat)
    requires n <= |rows|
    ensures forall k :: 0 <= k < n ==> rows[k].taskId < b
  {
    if n == 0 then 0
    else
      var b := Bound(rows, n - 1);
      if rows[n - 1].taskId + 1 > b then rows[n - 1].taskId + 1 else b
  }

  /** `Object.values` of an object with integer keys: the values in ascending key order (keys
      from lo up to hi). */
  function ValuesFrom(m: map<nat, TaskRecord>, lo: nat, hi: nat): seq<TaskRecord>
    decreases hi - lo
  {
    if lo >= hi then []
    else (if lo in m then [m[lo]] else []) + ValuesFrom(m, lo + 1, hi)
  }

  /** The reply list for the joined rows. */
  function GroupedList(rows: seq<JoinedRow>): seq<TaskRecord>
  {
    ValuesFrom(Group(rows, |rows|), 0, Bound(rows, |rows|))
  }

  /** The grouping loop of GET /api/tasks, building the `tasks` object row by row. */
  method GroupRows(rows: seq<JoinedRow>) returns (taskList: seq<TaskRecord>)
    ensures taskList == GroupedList(rows)
  {
    var tasks: map<nat, TaskRecord> := map[];
    var bound := 0;
    var i := 0;
    while i < |rows|
      invariant 0 <= i <= |rows|
      invariant tasks == Group(rows, i) && bound == Bound(rows, i)
    {
      var row := rows[i];
      ghost var prev := tasks;
      if row.taskId !in tasks {
        tasks := tasks[row.taskId := TaskRecord(row.taskId, row.header, [])];
      }
      tasks := tasks[row.taskId := tasks[row.taskId].(tasks := tasks[row.taskId].tasks + [row.entry])];
      assert [] + [row.entry] == [row.entry];
      assert tasks == AddRow(prev, row);
      if row.taskId + 1 > bound {
        bound := row.taskId + 1;
      }
      i := i + 1;
    }
    taskList := ValuesFrom(tasks, 0, bound);
  }

  /** GET /api/tasks: the grouped list, or 500 when the query fails (result None). */
  datatype ListReply = TaskList(status: nat, list: seq<TaskRecord>) | ListFailed(status: nat, text: string)

  method ListTasks(result: Option<seq<JoinedRow>>) returns (reply: ListReply)
    ensures result.None? ==> reply == ListFailed(500, "Error fetching tasks")
    ensures result.Some? ==> reply == TaskList(200, GroupedList(result.value))
  {
    if result.None? {
      return ListFailed(500, "Error fetching tasks");
    }
    var taskList := GroupRows(result.value);
    reply := TaskList(200, taskList);
  }

  /** The entries of the rows (among the first n) that belong to task id k, in row order. */
  function EntriesOf(rows: seq<JoinedRow>, n: nat, k: nat): seq<EntryFields>
    requires n <= |rows|
  {
    if n == 0 then []
    else EntriesOf(rows, n - 1, k) + (if rows[n - 1].taskId == k then [rows[n - 1].entry] else [])
  }

  predicate HasRow(rows: seq<JoinedRow>, n: nat, k: nat)
    requires n <= |rows|
  {
    exists i :: 0 <= i < n && rows[i].taskId == k
  }

  /** Index of the first of the first n rows with task id k. */
  function FirstRow(rows: seq<JoinedRow>, n: nat, k: nat): (j: nat)
    requires n <= |rows| && HasRow(rows, n, k)
    ensures j < n && rows[j].taskId == k && forall i :: 0 <= i < j ==> rows[i].taskId != k
  {
    if HasRow(rows, n - 1, k) then FirstRow(rows, n - 1, k) else n - 1
  }

  lemma {:induction false} GroupKeys(rows: seq<JoinedRow>, n: nat)
    requires n <= |rows|
    ensures forall k :: k in Group(rows, n) <==> HasRow(rows, n, k)
  {
    if n > 0 {
      GroupKeys(rows, n - 1);
      forall k ensures k in Group(rows, n) <==> HasRow(rows, n, k) {
        if HasRow(rows, n, k) && k != rows[n - 1].taskId {
          var i :| 0 <= i < n && rows[i].taskId == k;
          assert HasRow(rows, n - 1, k);
        }
        if HasRow(rows, n - 1, k) {
          var i :| 0 <= i < n - 1 && rows[i].taskId == k;
          assert 0 <= i < n && rows[i].taskId == k;
        }
        if k == rows[n - 1].taskId {
          assert rows[n - 1].taskId == k;
        }
      }
    }
  }

  lemma {:induction false} EntriesOfAbsent(rows: seq<JoinedRow>, n: nat, k: nat)
    requires n <= |rows| && !HasRow(rows, n, k)
    ensures EntriesOf(rows, n, k) == []
  {
    if n > 0 {
      assert rows[n - 1].taskId != k;
      EntriesOfAbsent(rows, n - 1, k);
    }
  }

  /** The record of one id: its id, the header of its first row, the entries of its rows. */
  lemma {:induction false} GroupRecord(rows: seq<JoinedRow>, n: nat, k: nat)
    requires n <= |rows| && HasRow(rows, n, k)
    ensures k in Group(rows, n)
    ensures Group(rows, n)[k] == TaskRecord(k, rows[FirstRow(rows, n, k)].header, EntriesOf(rows, n, k))
  {
    var row := rows[n - 1];
    if HasRow(rows, n - 1, k) {
      GroupRecord(rows, n - 1, k);
    } else {
      assert row.taskId == k;
      GroupKeys(rows, n - 1);
      EntriesOfAbsent(rows, n - 1, k);
      assert FirstRow(rows, n, k) == n - 1;
    }
  }

  /** The grouped object, key by key: one record per distinct id, carrying the id, the header
      of its first row, and the entries of exactly its rows in row order. */
  lemma GroupContents(rows: seq<JoinedRow>, n: nat)
    requires n <= |rows|
    ensures forall k :: k in Group(rows, n) <==> HasRow(rows, n, k)
    ensures forall k :: k in Group(rows, n) ==>
              Group(rows, n)[k] == TaskRecord(k, rows[FirstRow(rows, n, k)].header, EntriesOf(rows, n, k))
  {
    GroupKeys(rows, n);
    forall k | k in Group(rows, n)
      ensures Group(rows, n)[k] == TaskRecord(k, rows[FirstRow(rows, n, k)].header, EntriesOf(rows, n, k))
    {
      GroupRecord(rows, n, k);
    }
  }

  /** Total number of entries over a list of task records. */
  function TotalEntries(list: seq<TaskRecord>): nat
  {
    if list == [] then 0 else |list[0].tasks| + TotalEntries(list[1..])
  }

  lemma {:induction false} TotalEntriesAppend(a: seq<TaskRecord>, b: seq<TaskRecord>)
    ensures TotalEntries(a + b) == TotalEntries(a) + TotalEntries(b)
    decreases |a|
  {
    if a != [] {
      assert (a + b)[0] == a[0] && (a + b)[1..] == a[1..] + b;
      TotalEntriesAppend(a[1..], b);
      assert TotalEntries(a + b) == |a[0].tasks| + TotalEntries(a[1..] + b);
    } else {
      assert a + b == b;
    }
  }

  /** Maps that agree on the keys in [lo, hi) list the same values there. */
  lemma {:induction false} ValuesFromAgree(m: map<nat, TaskRecord>, m': map<nat, TaskRecord>, lo: nat, hi: nat)
    requires forall k :: lo <= k < hi ==> (k in m <==> k in m') && (k in m ==> m[k] == m'[k])
    ensures ValuesFrom(m, lo, hi) == ValuesFrom(m', lo, hi)
    decreases hi - lo
  {
    if lo < hi {
      ValuesFromAgree(m, m', lo + 1, hi);
    }
  }

  /** Adding a row whose id lies in [lo, hi) adds exactly one entry to the listed values. */
  lemma {:induction false} AddRowCount(m: map<nat, TaskRecord>, row: JoinedRow, lo: nat, hi: nat)
    requires lo <= row.taskId < hi
    ensures TotalEntries(ValuesFrom(AddRow(m, row), lo, hi)) == TotalEntries(ValuesFrom(m, lo, hi)) + 1
    decreases hi - lo
  {
    var m' := AddRow(m, row);
    var head := if lo in m then [m[lo]] else [];
    var head' := if lo in m' then [m'[lo]] else [];
    TotalEntriesAppend(head, ValuesFrom(m, lo + 1, hi));
    TotalEntriesAppend(head', ValuesFrom(m', lo + 1, hi));
    if lo == row.taskId {
      ValuesFromAgree(m, m', lo + 1, hi);
      assert TotalEntries(head') == TotalEntries(head) + 1 by {
        assert TotalEntries([m'[lo]]) == |m'[lo].tasks|;
        if lo in m {
          assert TotalEntries([m[lo]]) == |m[lo].tasks|;
        }
      }
    } else {
      AddRowCount(m, row, lo + 1, hi);
      assert head' == head;
    }
  }

  /** Every joined row adds exactly one entry to the reply, whatever the grouping. */
  lemma {:induction false} TotalEntriesOfGroup(rows: seq<JoinedRow>, n: nat, hi: nat)
    requires n <= |rows| && forall k :: 0 <= k < n ==> rows[k].taskId < hi
    ensures TotalEntries(ValuesFrom(Group(rows, n), 0, hi)) == n
  {
    if n == 0 {
      EmptyValues(0, hi);
    } else {
      TotalEntriesOfGroup(rows, n - 1, hi);
      AddRowCount(Group(rows, n - 1), rows[n - 1], 0, hi);
    }
  }

  lemma {:induction false} EmptyValues(lo: nat, hi: nat)
    ensures ValuesFrom(map[], lo, hi) == []
    decreases hi - lo
  {
    if lo < hi {
      EmptyValues(lo + 1, hi);
    }
  }

  /** vs lists the values of m at the keys in [lo, hi), each once, in strictly ascending id order. */
  predicate Listed(m: map<nat, TaskRecord>, lo: nat, hi: nat, vs: seq<TaskRecord>)
  {
    ListedFrom(m, lo, hi, vs) && Ascending(vs) && ListsAll(m, lo, hi, vs)
  }

  /** Every listed record is m's value at its own id, which lies in [lo, hi). */
  predicate ListedFrom(m: map<nat, TaskRecord>, lo: nat, hi: nat, vs: seq<TaskRecord>)
  {
    forall j :: 0 <= j < |vs| ==> lo <= vs[j].id < hi && vs[j].id in m && vs[j] == m[vs[j].id]
  }

  predicate Ascending(vs: seq<TaskRecord>)
  {
    forall j, l :: 0 <= j < l < |vs| ==> vs[j].id < vs[l].id
  }

  /** Every key of m in [lo, hi) is the id of a listed record. */
  predicate ListsAll(m: map<nat, TaskRecord>, lo: nat, hi: nat, vs: seq<TaskRecord>)
  {
    forall k :: lo <= k < hi && k in m ==> exists j :: 0 <= j < |vs| && vs[j].id == k
  }

  lemma ListedWiden(m: map<nat, TaskRecord>, lo: nat, hi: nat, vs: seq<TaskRecord>)
    requires lo !in m && Listed(m, lo + 1, hi, vs)
    ensures Listed(m, lo, hi, vs)
  {
    forall k | lo <= k < hi && k in m ensures exists j :: 0 <= j < |vs| && vs[j].id == k {
      assert lo + 1 <= k;
    }
  }

  lemma ListedCons(m: map<nat, TaskRecord>, lo: nat, hi: nat, vs: seq<TaskRecord>)
    requires lo < hi && lo in m && m[lo].id == lo && Listed(m, lo + 1, hi, vs)
    ensures Listed(m, lo, hi, [m[lo]] + vs)
  {
    ListedFromCons(m, lo, hi, vs);
    AscendingCons(m[lo], vs, lo + 1);
    ListsAllCons(m, lo, hi, vs);
  }

  lemma ListedFromCons(m: map<nat, TaskRecord>, lo: nat, hi: nat, vs: seq<TaskRecord>)
    requires lo < hi && lo in m && m[lo].id == lo && ListedFrom(m, lo + 1, hi, vs)
    ensures ListedFrom(m, lo, hi, [m[lo]] + vs)
  {
    var ws := [m[lo]] + vs;
    forall j | 0 <= j < |ws| ensures lo <= ws[j].id < hi && ws[j].id in m && ws[j] == m[ws[j].id] {
      if j > 0 {
        assert ws[j] == vs[j - 1];
      }
    }
  }

  lemma AscendingCons(v: TaskRecord, vs: seq<TaskRecord>, lo: nat)
    requires Ascending(vs) && v.id < lo && forall j :: 0 <= j < |vs| ==> lo <= vs[j].id
    ensures Ascending([v] + vs)
  {
    var ws := [v] + vs;
    forall j, l | 0 <= j < l < |ws| ensures ws[j].id < ws[l].id {
      assert ws[l] == vs[l - 1];
      if j > 0 {
        assert ws[j] == vs[j - 1];
      }
    }
  }

  lemma ListsAllCons(m: map<nat, TaskRecord>, lo: nat, hi: nat, vs: seq<TaskRecord>)
    requires lo < hi && lo in m && m[lo].id == lo && ListsAll(m, lo + 1, hi, vs)
    ensures ListsAll(m, lo, hi, [m[lo]] + vs)
  {
    var ws := [m[lo]] + vs;
    forall k | lo <= k < hi && k in m ensures exists j :: 0 <= j < |ws| && ws[j].id == k {
      if k == lo {
        assert ws[0].id == k;
      } else {
        var j :| 0 <= j < |vs| && vs[j].id == k;
        assert ws[j + 1].id == k;
      }
    }
  }

  /** The listed values are the map's values at keys in [lo, hi), in strictly ascending key
      order, when every record carries its own key as id. */
  lemma {:induction false} ValuesFromOrdered(m: map<nat, TaskRecord>, lo: nat, hi: nat)
    requires forall k :: k in m ==> m[k].id == k
    ensures Listed(m, lo, hi, ValuesFrom(m, lo, hi))
    decreases hi - lo
  {
    if lo < hi {
      ValuesFromOrdered(m, lo + 1, hi);
      var rest := ValuesFrom(m, lo + 1, hi);
      if lo in m {
        assert ValuesFrom(m, lo, hi) == [m[lo]] + rest;
        ListedCons(m, lo, hi, rest);
      } else {
        assert ValuesFrom(m, lo, hi) == [] + rest == rest;
        ListedWiden(m, lo, hi, rest);
      }
    }
  }

  /** The reply lists the grouped object's values at every key below the bound, each once, in
      ascending id order. */
  lemma GroupedListListed(rows: seq<JoinedRow>)
    ensures Listed(Group(rows, |rows|), 0, Bound(rows, |rows|), GroupedList(rows))
  {
    GroupContents(rows, |rows|);
    ValuesFromOrdered(Group(rows, |rows|), 0, Bound(rows, |rows|));
  }

  /** The reply has a record for exactly the task ids among the rows. */
  lemma GroupedListIds(rows: seq<JoinedRow>)
    ensures var list := GroupedList(rows);
            forall k :: HasRow(rows, |rows|, k) <==> exists j :: 0 <= j < |list| && list[j].id == k
  {
    var n := |rows|;
    var b := Bound(rows, n);
    var list := GroupedList(rows);
    GroupContents(rows, n);
    GroupedListListed(rows);
    forall k | HasRow(rows, n, k) ensures exists j :: 0 <= j < |list| && list[j].id == k {
      var i :| 0 <= i < n && rows[i].taskId == k;
      assert k < b;
    }
  }

  /** Each record of the reply carries the header of its id's first row and exactly its rows'
      entries, in row order. */
  lemma GroupedListRecords(rows: seq<JoinedRow>)
    ensures var list := GroupedList(rows);
            forall j :: 0 <= j < |list| ==>
              && HasRow(rows, |rows|, list[j].id)
              && list[j].header == rows[FirstRow(rows, |rows|, list[j].id)].header
              && list[j].tasks == EntriesOf(rows, |rows|, list[j].id)
  {
    GroupContents(rows, |rows|);
    GroupedListListed(rows);
  }

  /** GET /api/tasks reply: one record per distinct task id, listed in ascending id order; each
      carries the header of its id's first row and the entries of exactly its rows, in row
      order; and the entries over all records number exactly the rows. */
  lemma GroupedListProperties(rows: seq<JoinedRow>)
    ensures var list := GroupedList(rows);
            && (forall j, l :: 0 <= j < l < |list| ==> list[j].id < list[l].id)
            && (forall k :: HasRow(rows, |rows|, k) <==> exists j :: 0 <= j < |list| && list[j].id == k)
            && (forall j :: 0 <= j < |list| ==>
                  && HasRow(rows, |rows|, list[j].id)
                  && list[j].header == rows[FirstRow(rows, |rows|, list[j].id)].header
                  && list[j].tasks == EntriesOf(rows, |rows|, list[j].id))
            && TotalEntries(list) == |rows|
  {
    GroupedListListed(rows);
    GroupedListIds(rows);
    GroupedListRecords(rows);
    TotalEntriesOfGroup(rows, |rows|, Bound(rows, |rows|));
  }

  // ---------------------------------------------------------------------------------------
  // GET /api/tasks/:id

  /** `SELECT * FROM Tasks WHERE task_id = @task_id`, in table order. */
  function EntriesFor(entries: seq<EntryRow>, taskId: int): (r: seq<EntryRow>)
    ensures forall e :: e in r <==> e in entries && e.taskId == taskId
    ensures |r| <= |entries|
    decreases |entries|
  {
    if entries == [] then []
    else (if entries[0].taskId == taskId then [entries[0]] else []) + EntriesFor(entries[1..], taskId)
  }

  /** The first parent row with the id, if any. */
  function FindTask(tasks: seq<TaskRow>, id: int): (r: Option<nat>)
    ensures r.Some? ==> r.value < |tasks| && tasks[r.value].id == id
                        && forall j :: 0 <= j < r.value ==> tasks[j].id != id
    ensures r.None? <==> forall j :: 0 <= j < |tasks| ==> tasks[j].id != id
    decreases |tasks|
  {
    if tasks == [] then None
    else if tasks[0].id == id then Some(0)
    else match FindTask(tasks[1..], id)
      case None => None
      case Some(j) => Some(j + 1)
  }

  datatype TaskWithEntries = TaskWithEntries(task: TaskRow, entries: seq<EntryRow>)
  datatype FetchReply = Found(status: nat, value: TaskWithEntries) | FetchFailed(status: nat, text: string)

  /** GET /api/tasks/:id: the parent row with its entries attached, 404 without a parent row, 500
      when the store fails. */
  function FetchTask(store: Store, id: int, available: bool): (r: FetchReply)
    ensures !available ==> r == FetchFailed(500, "Error fetching task")
    ensures available && (forall j :: 0 <= j < |store.tasks| ==> store.tasks[j].id != id) ==>
              r == FetchFailed(404, "Task not found")
    ensures r.Found? <==> available && exists j :: 0 <= j < |store.tasks| && store.tasks[j].id == id
    ensures r.Found? ==> r.status == 200 && r.value.task in store.tasks && r.value.task.id == id
                         && forall e :: e in r.value.entries <==> e in store.entries && e.taskId == id
  {
    if !available then FetchFailed(500, "Error fetching task")
    else match FindTask(store.tasks, id)
      case None => FetchFailed(404, "Task not found")
      case Some(j) => Found(200, TaskWithEntries(store.tasks[j], EntriesFor(store.entries, id)))
  }

  // ---------------------------------------------------------------------------------------
  // PUT /api/tasks/:id

  /** A JSON body value. `Other` is an array or object, given by its string form (the elements'
      strings joined by commas, or `[object Object]`); `Number()` and `parseFloat` of such a value
      are those of that string. */
  datatype BodyValue = Undefined | Null | Boolean(b: bool) | Number(x: real) | Text(s: string)
                     | Other(text: string)

  /** `Number(value)`; `parseNumber` is JavaScript's string-to-number conversion, None for NaN. */
  function ToNumber(v: BodyValue, parseNumber: string -> Option<real>): Option<real>
  {
    match v
    case Undefined => None
    case Null => Some(0.0)
    case Boolean(b) => Some(if b then 1.0 else 0.0)
    case Number(x) => Some(x)
    case Text(s) => parseNumber(s)
    case Other(t) => parseNumber(t)
  }

  predicate IsWhitespace(c: char)
  {
    c == ' ' || c == '\t' || c == '\n' || c == '\r' || c == '\U{000B}' || c == '\U{000C}'
    || c == '\U{00A0}' || c == '\U{FEFF}' || c == '\U{2028}' || c == '\U{2029}'
  }

  predicate IsDigit(c: char)
  {
    '0' <= c <= '9'
  }

  /** The longest run of digits at the front of s. */
  function DigitRun(s: string): (r: string)
    ensures |r| <= |s| && r == s[..|r|] && forall k :: 0 <= k < |r| ==> IsDigit(r[k])
    ensures |r| < |s| ==> !IsDigit(s[|r|])
    decreases |s|
  {
    if s != [] && IsDigit(s[0]) then [s[0]] + DigitRun(s[1..]) else []
  }

  /** The value of a string of decimal digits. */
  function DigitsValue(ds: string): nat
    requires forall k :: 0 <= k < |ds| ==> IsDigit(ds[k])
    decreases |ds|
  {
    if ds == [] then 0
    else
      assert IsDigit(ds[|ds| - 1]);
      DigitsValue(ds[..|ds| - 1]) * 10 + (ds[|ds| - 1] as int - '0' as int)
  }

  function TrimStart(s: string): (r: string)
    ensures r != [] ==> !IsWhitespace(r[0])
    decreases |s|
  {
    if s != [] && IsWhitespace(s[0]) then TrimStart(s[1..]) else s
  }

  /** `parseInt(s, 10)`: leading whitespace, an optional sign, then the digits up to the first
      non-digit; None (NaN) when no digit follows. */
  function ParseInt(s: string): Option<int>
  {
    ParseSigned(TrimStart(s))
  }

  function ParseSigned(t: string): Option<int>
  {
    var negative := t != [] && t[0] == '-';
    var body := if t != [] && (t[0] == '-' || t[0] == '+') then t[1..] else t;
    var ds := DigitRun(body);
    if ds == [] then None
    else Some(if negative then -(DigitsValue(ds) as int) else DigitsValue(ds) as int)
  }

  /** The decimal text of a natural number. */
  function Decimal(n: nat): (r: string)
    ensures r != [] && forall k :: 0 <= k < |r| ==> IsDigit(r[k])
    decreases n
  {
    if n < 10 then [('0' as int + n) as char] else Decimal(n / 10) + [('0' as int + n % 10) as char]
  }

  /** The decimal numeral of an integer, with a minus sign when negative. */
  function Numeral(n: int): string
  {
    if n < 0 then "-" + Decimal(-n) else Decimal(n)
  }

  lemma {:induction false} DecimalValue(n: nat)
    ensures DigitsValue(Decimal(n)) == n
    decreases n
  {
    if n >= 10 {
      DecimalValue(n / 10);
      var d := Decimal(n);
      assert d[..|d| - 1] == Decimal(n / 10);
    }
  }

  lemma {:induction false} DigitRunOfDigits(ds: string, rest: string)
    requires forall k :: 0 <= k < |ds| ==> IsDigit(ds[k])
    requires rest == [] || !IsDigit(rest[0])
    ensures DigitRun(ds + rest) == ds
    decreases |ds|
  {
    if ds != [] {
      assert (ds + rest)[1..] == ds[1..] + rest;
      DigitRunOfDigits(ds[1..], rest);
      assert [ds[0]] + ds[1..] == ds;
    } else {
      assert ds + rest == rest;
    }
  }

  lemma {:induction false} ParseDigits(ds: string, rest: string)
    requires ds != [] && forall k :: 0 <= k < |ds| ==> IsDigit(ds[k])
    requires rest == [] || !IsDigit(rest[0])
    ensures ParseInt(ds + rest) == Some(DigitsValue(ds) as int)
  {
    var s := ds + rest;
    assert s[0] == ds[0] && IsDigit(s[0]);
    DigitRunOfDigits(ds, rest);
    assert TrimStart(s) == s;
    assert s[0] != '-' && s[0] != '+';
    assert DigitRun(s) == ds;
  }

  lemma {:induction false} ParseNegativeDigits(ds: string, rest: string)
    requires ds != [] && forall k :: 0 <= k < |ds| ==> IsDigit(ds[k])
    requires rest == [] || !IsDigit(rest[0])
    ensures ParseInt("-" + ds + rest) == Some(-(DigitsValue(ds) as int))
  {
    var s := "-" + ds + rest;
    assert s[0] == '-' && s[1..] == ds + rest;
    DigitRunOfDigits(ds, rest);
    assert TrimStart(s) == s;
    assert DigitRun(s[1..]) == ds;
  }

  /** parseInt reads back the numeral of any integer, also when other text follows it. */
  lemma {:induction false} ParseIntNumeral(n: int, rest: string)
    requires rest == [] || !IsDigit(rest[0])
    ensures ParseInt(Numeral(n) + rest) == Some(n)
  {
    if n < 0 {
      DecimalValue(-n);
      ParseNegativeDigits(Decimal(-n), rest);
    } else {
      DecimalValue(n);
      ParseDigits(Decimal(n), rest);
    }
  }

  /** `UPDATE Tasks SET actualHour = @actualHour WHERE id = @id`: the rows touched. */
  function CountWithId(entries: seq<EntryRow>, id: int): (n: nat)
    ensures n == 0 <==> forall j :: 0 <= j < |entries| ==> entries[j].id != id
    decreases |entries|
  {
    if entries == [] then 0 else (if entries[0].id == id then 1 else 0) + CountWithId(entries[1..], id)
  }

  function SetActualHour(entries: seq<EntryRow>, id: int, hour: Option<real>): (r: seq<EntryRow>)
    ensures |r| == |entries|
    ensures forall j :: 0 <= j < |entries| ==>
              r[j] == if entries[j].id == id then entries[j].(fields := entries[j].fields.(actualHour := hour))
                      else entries[j]
  {
    seq(|entries|, j requires 0 <= j < |entries| =>
      if entries[j].id == id then entries[j].(fields := entries[j].fields.(actualHour := hour)) else entries[j])
  }

  /** The sign `parseFloat` accepts at the front of t, or nothing. */
  function Sign(t: string): (r: string)
    ensures |r| <= 1 && |r| <= |t| && r == t[..|r|]
  {
    if t != [] && (t[0] == '+' || t[0] == '-') then t[..1] else []
  }

  const Infinity: string := "Infinity"

  /** Whether an unsigned decimal literal starts u: a digit, a point and a digit, or `Infinity`. */
  predicate StartsFloat(u: string)
  {
    || (u != [] && IsDigit(u[0]))
    || (|u| >= 2 && u[0] == '.' && IsDigit(u[1]))
    || (|u| >= |Infinity| && u[..|Infinity|] == Infinity)
  }

  /** Digits, then an optional point and more digits, at the front of u; empty when there is no
      digit among them. */
  function Mantissa(u: string): (r: string)
    ensures |r| <= |u| && r == u[..|r|]
    ensures r != [] <==> (u != [] && IsDigit(u[0])) || (|u| >= 2 && u[0] == '.' && IsDigit(u[1]))
  {
    var i := DigitRun(u);
    if |i| < |u| && u[|i|] == '.' then
      var f := DigitRun(u[|i| + 1..]);
      if i == [] && f == [] then []
      else
        assert u[..|i| + 1 + |f|] == i + "." + f;
        i + "." + f
    else i
  }

  /** `e` or `E`, an optional sign and at least one digit, at the front of t; empty otherwise. */
  function Exponent(t: string): (r: string)
    ensures |r| <= |t| && r == t[..|r|]
  {
    if t != [] && (t[0] == 'e' || t[0] == 'E') then
      var sg := Sign(t[1..]);
      var ds := DigitRun(t[1 + |sg|..]);
      if ds == [] then []
      else
        assert t[..1 + |sg| + |ds|] == t[..1] + sg + ds;
        t[..1] + sg + ds
    else []
  }

  lemma PrefixThen(u: string, m: string, e: string)
    requires |m| <= |u| && m == u[..|m|]
    requires |e| <= |u[|m|..]| && e == u[|m|..][..|e|]
    ensures |m + e| <= |u| && m + e == u[..|m| + |e|]
  {
    assert forall k :: 0 <= k < |e| ==> e[k] == u[|m| + k];
  }

  /** The longest unsigned decimal literal at the front of u; empty when there is none. */
  function UnsignedLiteral(u: string): (r: string)
    ensures |r| <= |u| && r == u[..|r|]
    ensures r != [] <==> StartsFloat(u)
  {
    if |u| >= |Infinity| && u[..|Infinity|] == Infinity then Infinity
    else
      var m := Mantissa(u);
      if m == [] then []
      else
        var e := Exponent(u[|m|..]);
        PrefixThen(u, m, e);
        m + e
  }

  /** The literal `parseFloat` reads from s: after leading white space, an optional sign and the
      longest unsigned decimal literal; empty when there is none, and `parseFloat` is then NaN. */
  function FloatPrefix(s: string): (r: string)
    ensures |r| <= |TrimStart(s)| && r == TrimStart(s)[..|r|]
    ensures r != [] <==> StartsFloat(TrimStart(s)[|Sign(TrimStart(s))|..])
  {
    var t := TrimStart(s);
    var sg := Sign(t);
    var u := UnsignedLiteral(t[|sg|..]);
    if u == [] then []
    else
      assert t[..|sg| + |u|] == sg + u;
      sg + u
  }

  /** Whether the `sql.Float` parameter accepts the value. Its check runs `parseFloat` and
      throws on NaN: `parseFloat(true)` and `parseFloat(false)` are NaN, and so is `parseFloat` of
      a string or of an array's or object's string form that has no leading decimal literal. A
      number and null bind. */
  predicate FloatBinds(v: BodyValue)
  {
    match v
    case Boolean(_) => false
    case Text(s) => FloatPrefix(s) != []
    case Other(t) => FloatPrefix(t) != []
    case _ => true
  }

  /** The number the driver stores for a value that binds: `parseFloat` of it, the value of the
      literal it reads. Null stays NULL. */
  function StoredHour(v: BodyValue, parseNumber: string -> Option<real>): Option<real>
  {
    match v
    case Number(x) => Some(x)
    case Text(s) => parseNumber(FloatPrefix(s))
    case Other(t) => parseNumber(FloatPrefix(t))
    case _ => None
  }

  lemma {:induction false} TrimBlank(s: string)
    requires forall k :: 0 <= k < |s| ==> IsWhitespace(s[k])
    ensures TrimStart(s) == []
    decreases |s|
  {
    if s != [] {
      TrimBlank(s[1..]);
    }
  }

  /** `parseFloat` reads the whole numeral of an integer. */
  lemma FloatPrefixNumeral(n: int)
    ensures FloatPrefix(Numeral(n)) == Numeral(n)
  {
    var s := Numeral(n);
    var d := if n < 0 then Decimal(-n) else Decimal(n);
    assert s == (if n < 0 then "-" else "") + d;
    assert TrimStart(s) == s;
    assert Sign(s) == (if n < 0 then "-" else "");
    var u := s[|Sign(s)|..];
    assert u == d;
    DigitRunOfDigits(d, []);
    assert d + [] == d;
    assert Mantissa(u) == d;
    assert u[|d|..] == [];
  }

  /** A blank hour, such as `""`, `[]`, `[""]` or `[[]]`, is refused by the float bind when
      `isNaN` lets it through: 500, or 400 when `Number()` already rejects it; never stored. */
  lemma BlankHourFails(store: Store, idParam: string, s: string, parseNumber: string -> Option<real>,
                       available: bool)
    requires forall k :: 0 <= k < |s| ==> IsWhitespace(s[k])
    requires ParseInt(idParam).Some?
    ensures UpdateTask(store, idParam, Text(s), parseNumber, available)
            == UpdateTask(store, idParam, Other(s), parseNumber, available)
            == (if parseNumber(s).None? then Response(400, "Invalid actual hour value")
                else Response(500, "Error updating task"), store)
  {
    TrimBlank(s);
  }

  /** An object hour (`[object Object]`) is never stored, whatever `Number()` makes of it. */
  lemma ObjectHourFails(store: Store, idParam: string, parseNumber: string -> Option<real>,
                        available: bool)
    ensures UpdateTask(store, idParam, Other("[object Object]"), parseNumber, available).1 == store
    ensures UpdateTask(store, idParam, Other("[object Object]"), parseNumber, available).0.status in {400, 500}
  {
    var t := "[object Object]";
    assert t[0] == '[' && TrimStart(t) == t && Sign(t) == [];
    assert !StartsFloat(t) by { assert t[..|Infinity|][0] != Infinity[0]; }
  }

  /** The range of the `sql.Int` parameter type (a 32-bit signed integer); the driver refuses to
      bind a value outside it by throwing. */
  const IntMin: int := -0x8000_0000
  const IntMax: int := 0x7FFF_FFFF

  predicate InIntRange(x: int)
  {
    IntMin <= x <= IntMax
  }

  /** A boolean hour passes the `isNaN` test but not the float bind: 500, whatever the table
      holds, for every id that parses. */
  lemma BooleanHourFails(store: Store, idParam: string, b: bool, parseNumber: string -> Option<real>,
                         available: bool)
    requires ParseInt(idParam).Some?
    ensures UpdateTask(store, idParam, Boolean(b), parseNumber, available)
            == (Response(500, "Error updating task"), store)
  {
  }

  /** An id that parses but does not fit `sql.Int`, such as 3000000000, gets 500 rather than 404,
      whatever the table holds. */
  lemma OutOfRangeIdFails(store: Store, n: int, actualHour: BodyValue,
                          parseNumber: string -> Option<real>)
    requires !InIntRange(n) && ToNumber(actualHour, parseNumber).Some?
    ensures UpdateTask(store, Numeral(n), actualHour, parseNumber, true)
            == (Response(500, "Error updating task"), store)
  {
    ParseIntNumeral(n, "");
    assert Numeral(n) + "" == Numeral(n);
  }

  /** PUT /api/tasks/:id: the actual hour is validated first, then the id; the update then
      answers 404 when it touched no row and 200 otherwise, 500 when the store fails, the id
      does not fit `sql.Int` or the hour does not bind as `sql.Float`. The `completed` field of the body is not read. */
  function UpdateTask(store: Store, idParam: string, actualHour: BodyValue,
                      parseNumber: string -> Option<real>, available: bool): (r: (Response, Store))
    ensures (actualHour.Undefined? || ToNumber(actualHour, parseNumber).None?) ==>
              r == (Response(400, "Invalid actual hour value"), store)
    ensures ToNumber(actualHour, parseNumber).Some? && ParseInt(idParam).None? ==>
              r == (Response(400, "Invalid task ID"), store)
    ensures ToNumber(actualHour, parseNumber).Some? && ParseInt(idParam).Some? ==>
              var id := ParseInt(idParam).value;
              if !available || !InIntRange(id) || !FloatBinds(actualHour) then
                r == (Response(500, "Error updating task"), store)
              else if CountWithId(store.entries, id) == 0 then r == (Response(404, "Task not found"), store)
              else r == (Response(200, "Task updated successfully"),
                         store.(entries := SetActualHour(store.entries, id, StoredHour(actualHour, parseNumber))))
    ensures r.0.status == 200 ==> InIntRange(ParseInt(idParam).value)
    ensures r.0.status != 200 ==> r.1 == store
  {
    if actualHour.Undefined? || ToNumber(actualHour, parseNumber).None? then
      (Response(400, "Invalid actual hour value"), store)
    else match ParseInt(idParam)
      case None => (Response(400, "Invalid task ID"), store)
      case Some(id) =>
        if !available || !InIntRange(id) || !FloatBinds(actualHour) then
          (Response(500, "Error updating task"), store)
        else if CountWithId(store.entries, id) == 0 then (Response(404, "Task not found"), store)
        else (Response(200, "Task updated successfully"),
              store.(entries := SetActualHour(store.entries, id, StoredHour(actualHour, parseNumber))))
  }
}
