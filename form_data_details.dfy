/** The task-detail view: per-entry actual hours and completion flags kept in index-keyed maps,
    the batch of updates it sends, and the planned/completed totals behind its progress bar. */
module FormDataDetails {
  import opened Common

  /** One row of `SELECT * FROM Tasks WHERE task_id = …` as the view reads it; the columns it uses
      may be null (and `completed` may not exist at all). */
  datatype DetailEntry = DetailEntry(id: nat, plannerHour: Option<real>, actualHour: Option<real>,
                                     completed: Option<bool>)

  /** `entry.actualHour || 0`. */
  function InitialHour(e: DetailEntry): (r: JsNumber)
    ensures r.Num? && (e.actualHour.Some? ==> r.r == e.actualHour.value)
    ensures e.actualHour.None? ==> r == Num(0.0)
  {
    if e.actualHour.Some? then Num(e.actualHour.value) else Num(0.0)
  }

  /** `entry.completed || false`. */
  function InitialDone(e: DetailEntry): (r: bool)
    ensures r <==> e.completed == Some(true)
  {
    e.completed.Some? && e.completed.value
  }

  /** The initial maps built by the `forEach` over the fetched entries: one key per entry index. */
  method InitialMaps(entries: seq<DetailEntry>) returns (hours: map<nat, JsNumber>, done: map<nat, bool>)
    ensures forall k: nat :: (k in hours <==> k < |entries|) && (k in done <==> k < |entries|)
    ensures forall k :: 0 <= k < |entries| ==> hours[k] == InitialHour(entries[k])
    ensures forall k :: 0 <= k < |entries| ==> done[k] == InitialDone(entries[k])
  {
    hours, done := map[], map[];
    var i := 0;
    while i < |entries|
      invariant 0 <= i <= |entries|
      invariant forall k: nat :: (k in hours <==> k < i) && (k in done <==> k < i)
      invariant forall k :: 0 <= k < i ==> hours[k] == InitialHour(entries[k])
      invariant forall k :: 0 <= k < i ==> done[k] == InitialDone(entries[k])
    {
      hours := hours[i := InitialHour(entries[i])];
      done := done[i := InitialDone(entries[i])];
      i := i + 1;
    }
  }

  /** `Math.max(0, parseFloat(value))`: NaN stays NaN, a number is clamped from below at zero. */
  function ClampHour(parsed: JsNumber): (r: JsNumber)
    ensures parsed.NaN? <==> r.NaN?
    ensures r.Num? ==> r.r >= 0.0 && (parsed.r >= 0.0 ==> r.r == parsed.r)
                       && (parsed.r < 0.0 ==> r.r == 0.0)
  {
    match parsed
    case NaN => NaN
    case Num(v) => Num(if v < 0.0 then 0.0 else v)
  }

  /** `moment(date).isSame(today, 'day')` on day numbers. */
  predicate IsToday(date: Day, today: Day)
  {
    date == today
  }

  /** A change event of one row: the checkbox, or the number input with its value as parseFloat
      reads it. */
  datatype InputEvent = Checkbox(checked: bool) | HourInput(parsed: JsNumber)

  /** `entries.reduce((total, entry) => total + entry.plannerHour, 0)` over the first n entries;
      a null planned hour adds nothing. */
  function PlannedSum(entries: seq<DetailEntry>, n: nat): real
    requires n <= |entries|
  {
    if n == 0 then 0.0 else PlannedSum(entries, n - 1) + Hours(entries[n - 1])
  }

  function Hours(e: DetailEntry): real
  {
    if e.plannerHour.Some? then e.plannerHour.value else 0.0
  }

  predicate Done(completed: map<nat, bool>, k: nat)
  {
    k in completed && completed[k]
  }

  /** The reduce for totalCompletedHours over the first n entries: the planned hours of the
      entries whose completed flag is set. */
  function CompletedSum(entries: seq<DetailEntry>, completed: map<nat, bool>, n: nat): real
    requires n <= |entries|
  {
    if n == 0 then 0.0
    else CompletedSum(entries, completed, n - 1) + (if Done(completed, n - 1) then Hours(entries[n - 1]) else 0.0)
  }

  function TotalPlanned(entries: seq<DetailEntry>): real
  {
    PlannedSum(entries, |entries|)
  }

  function TotalCompleted(entries: seq<DetailEntry>, completed: map<nat, bool>): real
  {
    CompletedSum(entries, completed, |entries|)
  }

  predicate NonNegativePlanned(entries: seq<DetailEntry>)
  {
    forall k :: 0 <= k < |entries| ==> Hours(entries[k]) >= 0.0
  }

  /** `(totalCompletedHours / totalPlannedHours) * 100`; with zero planned hours JavaScript gives
      NaN or an infinity, which is None here. */
  function CompletionPercentage(entries: seq<DetailEntry>, completed: map<nat, bool>): (r: Option<real>)
    ensures r.None? <==> TotalPlanned(entries) == 0.0
    ensures r.Some? ==> r.value * TotalPlanned(entries) == TotalCompleted(entries, completed) * 100.0
  {
    var planned := TotalPlanned(entries);
    if planned == 0.0 then None else Some(TotalCompleted(entries, completed) / planned * 100.0)
  }

  /** With non-negative planned hours, completed hours lie between zero and the total. */
  lemma {:induction false} CompletedWithinPlanned(entries: seq<DetailEntry>, completed: map<nat, bool>, n: nat)
    requires n <= |entries| && NonNegativePlanned(entries)
    ensures 0.0 <= CompletedSum(entries, completed, n) <= PlannedSum(entries, n)
  {
    if n > 0 {
      CompletedWithinPlanned(entries, completed, n - 1);
      assert Hours(entries[n - 1]) >= 0.0;
    }
  }

  lemma {:induction false} AllDoneSum(entries: seq<DetailEntry>, completed: map<nat, bool>, n: nat)
    requires n <= |entries| && forall k :: 0 <= k < |entries| ==> Done(completed, k)
    ensures CompletedSum(entries, completed, n) == PlannedSum(entries, n)
  {
    if n > 0 {
      AllDoneSum(entries, completed, n - 1);
      assert Done(completed, n - 1);
    }
  }

  lemma {:induction false} NoneDoneSum(entries: seq<DetailEntry>, completed: map<nat, bool>, n: nat)
    requires n <= |entries| && forall k :: 0 <= k < |entries| ==> !Done(completed, k)
    ensures CompletedSum(entries, completed, n) == 0.0
  {
    if n > 0 {
      NoneDoneSum(entries, completed, n - 1);
      assert !Done(completed, n - 1);
    }
  }

  /** The progress bar's value: within [0, 100] for non-negative hours, exactly 100 when every
      entry is completed and exactly 0 when none is; no value when nothing is planned. */
  lemma PercentageBounds(entries: seq<DetailEntry>, completed: map<nat, bool>)
    requires NonNegativePlanned(entries) && TotalPlanned(entries) > 0.0
    ensures CompletionPercentage(entries, completed).Some?
    ensures 0.0 <= CompletionPercentage(entries, completed).value <= 100.0
  {
    CompletedWithinPlanned(entries, completed, |entries|);
    RatioWithinOne(TotalCompleted(entries, completed), TotalPlanned(entries));
  }

  lemma RatioWithinOne(c: real, p: real)
    requires 0.0 <= c <= p && p > 0.0
    ensures 0.0 <= c / p * 100.0 <= 100.0
  {
    var q := c / p;
    assert q * p == c;
  }

  lemma PercentageAllDone(entries: seq<DetailEntry>, completed: map<nat, bool>)
    requires TotalPlanned(entries) != 0.0
    requires forall k :: 0 <= k < |entries| ==> Done(completed, k)
    ensures CompletionPercentage(entries, completed) == Some(100.0)
  {
    AllDoneSum(entries, completed, |entries|);
    var p := TotalPlanned(entries);
    assert p / p == 1.0;
  }

  lemma PercentageNoneDone(entries: seq<DetailEntry>, completed: map<nat, bool>)
    requires TotalPlanned(entries) != 0.0
    requires forall k :: 0 <= k < |entries| ==> !Done(completed, k)
    ensures CompletionPercentage(entries, completed) == Some(0.0)
  {
    NoneDoneSum(entries, completed, |entries|);
  }

  /** One `PUT /api/tasks/:id` request body with its target entry id. */
  datatype Put = Put(entryId: nat, actualHour: JsNumber, completed: Option<bool>)

  function Lookup(completed: map<nat, bool>, k: nat): Option<bool>
  {
    if k in completed then Some(completed[k]) else None
  }

  /** The requests handleSubmit sends for the first n entries, in entry order: one for each entry
      whose actual hour is defined. */
  function Updates(entries: seq<DetailEntry>, hours: map<nat, JsNumber>, completed: map<nat, bool>,
                   n: nat): (r: seq<Put>)
    requires n <= |entries|
    ensures |r| <= n
  {
    if n == 0 then []
    else
      var k := n - 1;
      Updates(entries, hours, completed, k)
      + (if k in hours then [Put(entries[k].id, hours[k], Lookup(completed, k))] else [])
  }

  /** The two extreme cases: all hours defined gives one request per entry, none defined gives no
      request at all. */
  lemma {:induction false} UpdatesCover(entries: seq<DetailEntry>, hours: map<nat, JsNumber>,
                                        completed: map<nat, bool>, n: nat)
    requires n <= |entries|
    ensures (forall k :: 0 <= k < n ==> k in hours) ==> |Updates(entries, hours, completed, n)| == n
    ensures (forall k :: 0 <= k < n ==> k !in hours) ==> Updates(entries, hours, completed, n) == []
  {
    if n > 0 {
      UpdatesCover(entries, hours, completed, n - 1);
    }
  }

  const SubmitSucceeded := "Actual hours and completion status updated successfully"
  const SubmitFailed := "Error updating actual hours"

  class TaskDetails {
    var taskDate: Day
    var entries: seq<DetailEntry>
    var actualHours: map<nat, JsNumber>
    var completedTasks: map<nat, bool>

    /** The view once the task has been fetched. */
    constructor Loaded(date: Day, fetched: seq<DetailEntry>)
      ensures taskDate == date && entries == fetched
      ensures forall k: nat :: (k in actualHours <==> k < |fetched|) && (k in completedTasks <==> k < |fetched|)
      ensures forall k :: 0 <= k < |fetched| ==> actualHours[k] == InitialHour(fetched[k])
      ensures forall k :: 0 <= k < |fetched| ==> completedTasks[k] == InitialDone(fetched[k])
    {
      var hours, done := InitialMaps(fetched);
      taskDate, entries := date, fetched;
      actualHours, completedTasks := hours, done;
    }

    /** The actual-hour input is enabled only on the task's own day. */
    predicate HourInputEnabled(today: Day)
      reads this
    {
      IsToday(taskDate, today)
    }

    /** handleInputChange(index, event): a checkbox sets only that index's flag; a number sets only
      that index's hour, clamped, and a disabled number input raises no event. */
    method InputChange(index: nat, ev: InputEvent, today: Day)
      modifies this
      ensures taskDate == old(taskDate) && entries == old(entries)
      ensures ev.Checkbox? ==> completedTasks == old(completedTasks)[index := ev.checked]
                               && actualHours == old(actualHours)
      ensures ev.HourInput? && HourInputEnabled(today) ==>
                actualHours == old(actualHours)[index := ClampHour(ev.parsed)]
                && completedTasks == old(completedTasks)
      ensures ev.HourInput? && !HourInputEnabled(today) ==>
                actualHours == old(actualHours) && completedTasks == old(completedTasks)
    {
      match ev
      case Checkbox(checked) =>
        completedTasks := completedTasks[index := checked];
      case HourInput(parsed) =>
        if IsToday(taskDate, today) {
          actualHours := actualHours[index := ClampHour(parsed)];
        }
    }

    /** handleSubmit: the requests go out one at a time in entry order; the request numbered
        `failAt` (counting from 0), if it is sent, fails and ends the loop. */
    method Submit(failAt: Option<nat>) returns (sent: seq<Put>, alert: string)
      ensures var all := Updates(entries, actualHours, completedTasks, |entries|);
              if failAt.Some? && failAt.value < |all|
              then sent == all[..failAt.value + 1] && alert == SubmitFailed
              else sent == all && alert == SubmitSucceeded
    {
      ghost var all := Updates(entries, actualHours, completedTasks, |entries|);
      sent := [];
      var i := 0;
      while i < |entries|
        invariant 0 <= i <= |entries|
        invariant sent == Updates(entries, actualHours, completedTasks, i)
        invariant failAt.Some? ==> |sent| <= failAt.value
      {
        var entry := entries[i];
        if i in actualHours {
          var actualHour := actualHours[i];
          var completed := Lookup(completedTasks, i);
          sent := sent + [Put(entry.id, actualHour, completed)];
          if failAt.Some? && |sent| == failAt.value + 1 {
            UpdatesPrefix(entries, actualHours, completedTasks, i + 1, |entries|);
            return sent, SubmitFailed;
          }
        }
        i := i + 1;
      }
      alert := SubmitSucceeded;
    }
  }

  /** The requests for a prefix of the entries are a prefix of all the requests. */
  lemma {:induction false} UpdatesPrefix(entries: seq<DetailEntry>, hours: map<nat, JsNumber>,
                                         completed: map<nat, bool>, m: nat, n: nat)
    requires m <= n <= |entries|
    ensures |Updates(entries, hours, completed, m)| <= |Updates(entries, hours, completed, n)|
    ensures Updates(entries, hours, completed, n)[..|Updates(entries, hours, completed, m)|]
            == Updates(entries, hours, completed, m)
    decreases n - m
  {
    if m < n {
      UpdatesPrefix(entries, hours, completed, m, n - 1);
      var a, b := Updates(entries, hours, completed, m), Updates(entries, hours, completed, n - 1);
      var c := Updates(entries, hours, completed, n);
      assert c[..|b|] == b;
      assert c[..|a|] == b[..|a|];
    }
  }

  /** An entry with a defined actual hour gets its request, carrying its id, its hour and its
      flag, right after the requests of the entries before it. */
  lemma UpdateOfEntry(entries: seq<DetailEntry>, hours: map<nat, JsNumber>, completed: map<nat, bool>,
                      k: nat, n: nat)
    requires k < n <= |entries| && k in hours
    ensures |Updates(entries, hours, completed, k)| < |Updates(entries, hours, completed, n)|
    ensures Updates(entries, hours, completed, n)[|Updates(entries, hours, completed, k)|]
            == Put(entries[k].id, hours[k], Lookup(completed, k))
  {
    UpdatesPrefix(entries, hours, completed, k + 1, n);
    var a := Updates(entries, hours, completed, k);
    assert Updates(entries, hours, completed, k + 1) == a + [Put(entries[k].id, hours[k], Lookup(completed, k))];
  }

  /** Requests go out in entry order: of two entries with defined hours, the earlier one's request
      comes first. */
  lemma UpdatesInEntryOrder(entries: seq<DetailEntry>, hours: map<nat, JsNumber>,
                            completed: map<nat, bool>, k: nat, l: nat)
    requires k < l <= |entries| && k in hours
    ensures |Updates(entries, hours, completed, k)| < |Updates(entries, hours, completed, l)|
  {
    UpdateOfEntry(entries, hours, completed, k, l);
  }

  /** Every request belongs to an entry with a defined actual hour, and carries its id, hour and
      flag. */
  lemma {:induction false} UpdateHasEntry(entries: seq<DetailEntry>, hours: map<nat, JsNumber>,
                                          completed: map<nat, bool>, n: nat, j: nat)
    requires n <= |entries| && j < |Updates(entries, hours, completed, n)|
    ensures exists k :: 0 <= k < n && k in hours
                        && Updates(entries, hours, completed, n)[j] == Put(entries[k].id, hours[k], Lookup(completed, k))
  {
    var k := n - 1;
    var prev := Updates(entries, hours, completed, k);
    if j < |prev| {
      UpdateHasEntry(entries, hours, completed, k, j);
      assert Updates(entries, hours, completed, n)[j] == prev[j];
    } else {
      assert k in hours;
      assert Updates(entries, hours, completed, n)[j] == Put(entries[k].id, hours[k], Lookup(completed, k));
    }
  }
}
