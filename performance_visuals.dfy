/** The chart shaping of the performance view: weekly and monthly statistics become two datasets. */
module PerformanceVisuals {
  import opened Common

  /** One row of /api/stats/weekly or /api/stats/monthly; the SUM columns may be null. */
  datatype Stat = Stat(name: string, totalPlannerHour: Option<real>, totalActualHour: Option<real>)

  /** One chart.js dataset (its `label` is `legend` here), with the colour strings the view sets. */
  datatype Dataset = Dataset(legend: string, data: seq<Option<real>>, backgroundColor: string,
                             borderColor: string, borderWidth: nat)

  datatype ChartData = ChartData(labels: seq<string>, datasets: seq<Dataset>)

  function Names(data: seq<Stat>): (r: seq<string>)
    ensures |r| == |data| && forall i :: 0 <= i < |data| ==> r[i] == data[i].name
  {
    seq(|data|, i requires 0 <= i < |data| => data[i].name)
  }

  function PlannerHours(data: seq<Stat>): (r: seq<Option<real>>)
    ensures |r| == |data| && forall i :: 0 <= i < |data| ==> r[i] == data[i].totalPlannerHour
  {
    seq(|data|, i requires 0 <= i < |data| => data[i].totalPlannerHour)
  }

  function ActualHours(data: seq<Stat>): (r: seq<Option<real>>)
    ensures |r| == |data| && forall i :: 0 <= i < |data| ==> r[i] == data[i].totalActualHour
  {
    seq(|data|, i requires 0 <= i < |data| => data[i].totalActualHour)
  }

  /** processChartData: three index-aligned projections and two datasets, planned first. */
  function ProcessChartData(data: seq<Stat>): (r: ChartData)
    ensures |r.labels| == |data| && |r.datasets| == 2
    ensures r.datasets[0].legend == "Planned Hours" && r.datasets[1].legend == "Actual Hours"
    ensures |r.datasets[0].data| == |data| && |r.datasets[1].data| == |data|
    ensures forall i :: 0 <= i < |data| ==>
              && r.labels[i] == data[i].name
              && r.datasets[0].data[i] == data[i].totalPlannerHour
              && r.datasets[1].data[i] == data[i].totalActualHour
  {
    ChartData(Names(data), [
      Dataset("Planned Hours", PlannerHours(data), "rgba(54, 162, 235, 0.2)", "rgba(54, 162, 235, 1)", 1),
      Dataset("Actual Hours", ActualHours(data), "rgba(75, 192, 192, 0.2)", "rgba(75, 192, 192, 1)", 1)
    ])
  }

  /** What the view draws: a bar chart of the weekly data and a line chart of the monthly data,
      each only once its data has arrived. */
  datatype Charts = Charts(weekly: Option<ChartData>, monthly: Option<ChartData>)

  function Render(weeklyData: Option<seq<Stat>>, monthlyData: Option<seq<Stat>>): (r: Charts)
    ensures r.weekly.Some? <==> weeklyData.Some?
    ensures r.monthly.Some? <==> monthlyData.Some?
    ensures weeklyData.Some? ==> r.weekly.value == ProcessChartData(weeklyData.value)
    ensures monthlyData.Some? ==> r.monthly.value == ProcessChartData(monthlyData.value)
  {
    Charts(if weeklyData.Some? then Some(ProcessChartData(weeklyData.value)) else None,
           if monthlyData.Some? then Some(ProcessChartData(monthlyData.value)) else None)
  }

  /** Shaping commutes with concatenation: the chart data of two runs of statistics rows, one
      after the other, is the chart data of each run, labels and both datasets appended. */
  lemma {:induction false} ShapingCommutesWithAppend(a: seq<Stat>, b: seq<Stat>)
    ensures ProcessChartData(a + b).labels == ProcessChartData(a).labels + ProcessChartData(b).labels
    ensures ProcessChartData(a + b).datasets[0].data
            == ProcessChartData(a).datasets[0].data + ProcessChartData(b).datasets[0].data
    ensures ProcessChartData(a + b).datasets[1].data
            == ProcessChartData(a).datasets[1].data + ProcessChartData(b).datasets[1].data
  {
    var ab, ra, rb := ProcessChartData(a + b), ProcessChartData(a), ProcessChartData(b);
    assert ab.labels == ra.labels + rb.labels;
    assert ab.datasets[0].data == ra.datasets[0].data + rb.datasets[0].data;
    assert ab.datasets[1].data == ra.datasets[1].data + rb.datasets[1].data;
  }
}
