/** The daily task form: a header (name, date, cluster, resource type) and an editable list of
    entry rows, saved by appending the whole form to the list kept in browser storage. */
module DailyForm {
  import opened Common

  /** The `name` attributes of the inputs of one entry row. */
  datatype Field = IncCr | Product | TaskType | TaskDescription | ActualHour | PlannerHour

  /** One entry row; every input holds a string (the number inputs too). */
  datatype Entry = Entry(incCr: string, product: string, taskType: string,
                         taskDescription: string, actualHour: string, plannerHour: string)

  const Blank := Entry("", "", "", "", "", "")

  function Get(e: Entry, f: Field): string
  {
    match f
    case IncCr => e.incCr
    case Product => e.product
    case TaskType => e.taskType
    case TaskDescription => e.taskDescription
    case ActualHour => e.actualHour
    case PlannerHour => e.plannerHour
  }

  /** `entry[name] = value`: the named field changes and no other. */
  function Set(e: Entry, f: Field, v: string): (r: Entry)
    ensures Get(r, f) == v
    ensures forall g :: g != f ==> Get(r, g) == Get(e, g)
  {
    match f
    case IncCr => e.(incCr := v)
    case Product => e.(product := v)
    case TaskType => e.(taskType := v)
    case TaskDescription => e.(taskDescription := v)
    case ActualHour => e.(actualHour := v)
    case PlannerHour => e.(plannerHour := v)
  }

  /** handleInputChange on the list: field f of row i becomes v; every other field of row i and
      every other row keep their values, and the length is unchanged. */
  function WithField(tasks: seq<Entry>, i: nat, f: Field, v: string): (r: seq<Entry>)
    requires i < |tasks|
    ensures |r| == |tasks|
    ensures Get(r[i], f) == v && forall g :: g != f ==> Get(r[i], g) == Get(tasks[i], g)
    ensures forall j :: 0 <= j < |tasks| && j != i ==> r[j] == tasks[j]
  {
    tasks[i := Set(tasks[i], f, v)]
  }

  /** handleAddTask on the list: one blank row at the end, the others untouched. */
  function Appended(tasks: seq<Entry>): (r: seq<Entry>)
    ensures |r| == |tasks| + 1 && r[..|tasks|] == tasks && r[|tasks|] == Blank
  {
    tasks + [Blank]
  }

  /** `values.splice(index, 1)` for a row index: row i goes, the rest keep their order; an index
      past the end removes nothing. */
  function Removed(tasks: seq<Entry>, i: nat): (r: seq<Entry>)
    ensures i >= |tasks| ==> r == tasks
    ensures i < |tasks| ==> |r| == |tasks| - 1
                            && (forall j :: 0 <= j < i ==> r[j] == tasks[j])
                            && (forall j :: i <= j < |r| ==> r[j] == tasks[j + 1])
  {
    if i < |tasks| then tasks[..i] + tasks[i + 1..] else tasks
  }

  /** The add button is rendered only on the last row, the delete button only on the others. */
  predicate AddOffered(tasks: seq<Entry>, row: nat)
  {
    row == |tasks| - 1
  }

  predicate DeleteOffered(tasks: seq<Entry>, row: nat)
  {
    row < |tasks| - 1
  }

  /** What a user can do to the rows: type into a field, or click a row's add or delete button. */
  datatype Action = Input(row: nat, field: Field, value: string) | ClickAdd(row: nat) | ClickDelete(row: nat)

  /** Whether the control an action uses is on screen. */
  predicate Offered(tasks: seq<Entry>, a: Action)
  {
    match a
    case Input(row, _, _) => row < |tasks|
    case ClickAdd(row) => AddOffered(tasks, row)
    case ClickDelete(row) => DeleteOffered(tasks, row)
  }

  function Apply(tasks: seq<Entry>, a: Action): seq<Entry>
    requires Offered(tasks, a)
  {
    match a
    case Input(row, f, v) => WithField(tasks, row, f, v)
    case ClickAdd(_) => Appended(tasks)
    case ClickDelete(row) => Removed(tasks, row)
  }

  /** A session of actions; an action whose control is not on screen cannot happen and is skipped. */
  function Run(tasks: seq<Entry>, actions: seq<Action>): seq<Entry>
    decreases |actions|
  {
    if actions == [] then tasks
    else
      var next := if Offered(tasks, actions[0]) then Apply(tasks, actions[0]) else tasks;
      Run(next, actions[1..])
  }

  /** The add/delete rule keeps at least one row, so from the initial single blank row the list
      is never empty. */
  lemma {:induction false} RowsNeverEmpty(tasks: seq<Entry>, actions: seq<Action>)
    requires |tasks| >= 1
    ensures |Run(tasks, actions)| >= 1
    decreases |actions|
  {
    if actions != [] {
      var next := if Offered(tasks, actions[0]) then Apply(tasks, actions[0]) else tasks;
      assert |next| >= 1;
      RowsNeverEmpty(next, actions[1..]);
    }
  }

  lemma FromInitialNeverEmpty(actions: seq<Action>)
    ensures |Run([Blank], actions)| >= 1
  {
    RowsNeverEmpty([Blank], actions);
  }

  /** The saved form. */
  datatype FormRecord = FormRecord(name: string, date: string, cluster: string,
                                   resourceType: string, tasks: seq<Entry>)

  /** The header inputs. */
  datatype HeaderField = Name | Date | Cluster | ResourceType

  class Form {
    var name: string
    var date: string
    var cluster: string
    var resourceType: string
    var tasks: seq<Entry>

    /** The rows are never empty. */
    ghost predicate Valid()
      reads this
    {
      |tasks| >= 1
    }

    /** The form starts empty, with one blank row. */
    constructor ()
      ensures Valid()
      ensures name == "" && date == "" && cluster == "" && resourceType == ""
      ensures tasks == [Blank]
    {
      name, date, cluster, resourceType := "", "", "", "";
      tasks := [Blank];
    }

    method ChangeHeader(f: HeaderField, v: string)
      modifies this
      ensures tasks == old(tasks)
      ensures name == (if f == Name then v else old(name))
      ensures date == (if f == Date then v else old(date))
      ensures cluster == (if f == Cluster then v else old(cluster))
      ensures resourceType == (if f == ResourceType then v else old(resourceType))
    {
      match f
      case Name => name := v;
      case Date => date := v;
      case Cluster => cluster := v;
      case ResourceType => resourceType := v;
    }

    /** handleInputChange(index, event): only rendered rows raise input events. */
    method InputChange(index: nat, f: Field, v: string)
      requires Valid() && index < |tasks|
      modifies this
      ensures Valid()
      ensures tasks == WithField(old(tasks), index, f, v)
      ensures name == old(name) && date == old(date) && cluster == old(cluster)
      ensures resourceType == old(resourceType)
    {
      var values := tasks;
      values := values[index := Set(values[index], f, v)];
      tasks := values;
    }

    method AddTask()
      requires Valid()
      modifies this
      ensures Valid()
      ensures tasks == Appended(old(tasks))
      ensures name == old(name) && date == old(date) && cluster == old(cluster)
      ensures resourceType == old(resourceType)
    {
      tasks := tasks + [Blank];
    }

    /** handleDeleteTask(index): its button exists only on rows other than the last. */
    method DeleteTask(index: nat)
      requires Valid() && DeleteOffered(tasks, index)
      modifies this
      ensures Valid()
      ensures tasks == Removed(old(tasks), index)
      ensures name == old(name) && date == old(date) && cluster == old(cluster)
      ensures resourceType == old(resourceType)
    {
      var values := tasks;
      values := values[..index] + values[index + 1..];
      tasks := values;
    }

    /** handleSubmit: the stored list (`|| []` when there is none) with this form pushed; the
        earlier records are kept in order and the form is the last. */
    method Submit(stored: Option<seq<FormRecord>>) returns (saved: seq<FormRecord>)
      ensures stored.None? ==> saved == [FormRecord(name, date, cluster, resourceType, tasks)]
      ensures stored.Some? ==> |saved| == |stored.value| + 1 && saved[..|stored.value|] == stored.value
      ensures saved[|saved| - 1] == FormRecord(name, date, cluster, resourceType, tasks)
    {
      var existingData := if stored.None? then [] else stored.value;
      existingData := existingData + [FormRecord(name, date, cluster, resourceType, tasks)];
      saved := existingData;
    }
  }
}
