/**
 * createDashboard and the values each tab is built from: the line chart's series, the
 * bar chart's average per sensor, the pie chart's weight per sensor (the same averages,
 * computed again) and the analysis panel's average, minimum and maximum per sensor.
 * Each chart groups the loaded readings by sensor on its own, as the source does.
 */
module Dashboard {
  import opened Wrappers
  import opened Loader
  import opened Grouping
  import opened TimeSeries
  import opened Stats

  /** One sensor's lines of the analysis text, before "%.2f" formatting. */
  datatype SensorStats = SensorStats(average: real, minimum: real, maximum: real)

  /** The data fed to the four tabs. */
  datatype Views = Views(
    lineChart: map<string, seq<Point>>,
    barChart: map<string, real>,
    pieChart: map<string, real>,
    analysis: map<string, SensorStats>)

  /** The entrySet loop computing average().orElse(0) for every group (bar and pie charts). */
  method AverageEach(valuesMap: map<string, seq<real>>) returns (averages: map<string, real>)
    ensures averages.Keys == valuesMap.Keys
    ensures forall s :: s in averages ==> averages[s] == Mean(valuesMap[s])
  {
    averages := map[];
    var pending := valuesMap.Keys;
    while pending != {}
      invariant pending <= valuesMap.Keys
      invariant averages.Keys == valuesMap.Keys - pending
      invariant forall s :: s in averages ==> averages[s] == Mean(valuesMap[s])
      decreases |pending|
    {
      var s :| s in pending;
      averages := averages[s := Mean(valuesMap[s])];
      pending := pending - {s};
    }
  }

  /** The entrySet loop of the analysis panel: average, min and max of every group. */
  method StatsEach(valuesMap: map<string, seq<real>>) returns (report: map<string, SensorStats>)
    ensures report.Keys == valuesMap.Keys
    ensures forall s :: s in report ==>
              report[s] == SensorStats(Mean(valuesMap[s]), Min(valuesMap[s]), Max(valuesMap[s]))
    ensures forall s :: s in report && valuesMap[s] != [] ==>
              report[s].minimum <= report[s].average <= report[s].maximum
  {
    report := map[];
    var pending := valuesMap.Keys;
    while pending != {}
      invariant pending <= valuesMap.Keys
      invariant report.Keys == valuesMap.Keys - pending
      invariant forall s :: s in report ==>
                  report[s] == SensorStats(Mean(valuesMap[s]), Min(valuesMap[s]), Max(valuesMap[s]))
      decreases |pending|
    {
      var s :| s in pending;
      var values := valuesMap[s];
      report := report[s := SensorStats(Mean(values), Min(values), Max(values))];
      pending := pending - {s};
    }
    forall s | s in report && valuesMap[s] != []
      ensures report[s].minimum <= report[s].average <= report[s].maximum
    {
      MeanBetweenMinAndMax(valuesMap[s]);
    }
  }

  /** createBarChart: one average per sensor that has readings. */
  method BarChart(data: seq<Reading>) returns (bar: map<string, real>)
    ensures bar.Keys == Sensors(data)
    ensures forall s :: s in bar ==> bar[s] == Mean(SensorValues(data, s))
    ensures forall s :: s in bar ==>
              Min(SensorValues(data, s)) <= bar[s] <= Max(SensorValues(data, s))
  {
    var valuesMap := GroupBySensor(data);
    bar := AverageEach(valuesMap);
    forall s | s in bar
      ensures bar[s] == Mean(SensorValues(data, s))
      ensures Min(SensorValues(data, s)) <= bar[s] <= Max(SensorValues(data, s))
    {
      var values := valuesMap[s];
      assert values == SensorValues(data, s) && values != [];
      assert bar[s] == Mean(values);
      MeanBetweenMinAndMax(values);
    }
  }

  /** createPieChart: the weights are the averages the bar chart shows. */
  method PieChart(data: seq<Reading>) returns (pie: map<string, real>)
    ensures pie.Keys == Sensors(data)
    ensures forall s :: s in pie ==> pie[s] == Mean(SensorValues(data, s))
  {
    var valuesMap := GroupBySensor(data);
    pie := AverageEach(valuesMap);
  }

  /** createAnalysisPanel: average, minimum and maximum per sensor that has readings. */
  method AnalysisPanel(data: seq<Reading>) returns (report: map<string, SensorStats>)
    ensures report.Keys == Sensors(data)
    ensures forall s :: s in report ==>
              report[s] == SensorStats(Mean(SensorValues(data, s)), Min(SensorValues(data, s)), Max(SensorValues(data, s)))
    ensures forall s :: s in report ==>
              report[s].minimum in SensorValues(data, s) && report[s].maximum in SensorValues(data, s)
    ensures forall s :: s in report ==>
              report[s].minimum <= report[s].average <= report[s].maximum
  {
    var valuesMap := GroupBySensor(data);
    report := StatsEach(valuesMap);
  }

  /**
   * createDashboard: load the file, then build every tab from the same readings.
   * A NumberFormatException from the load leaves createDashboard before any tab exists.
   */
  method BuildDashboard(lines: seq<string>) returns (r: Result<Views, LoadError>)
    ensures r.Err? <==> Load(lines).Err?
    ensures r.Err? ==> r.error == Load(lines).error
    ensures r.Ok? ==> r.value.lineChart == SeriesMap(Load(lines).value)
    ensures r.Ok? ==> r.value.pieChart == r.value.barChart
    ensures r.Ok? ==> r.value.barChart.Keys == r.value.analysis.Keys == r.value.lineChart.Keys
                      == Sensors(Load(lines).value)
    ensures r.Ok? ==> forall s :: s in r.value.barChart ==>
              r.value.barChart[s] == Mean(SensorValues(Load(lines).value, s))
    ensures r.Ok? ==> forall s :: s in r.value.analysis ==>
              r.value.analysis[s] == SensorStats(Mean(SensorValues(Load(lines).value, s)),
                Min(SensorValues(Load(lines).value, s)), Max(SensorValues(Load(lines).value, s)))
    ensures r.Ok? ==> forall s :: s in r.value.analysis ==>
              r.value.analysis[s].average == r.value.barChart[s]
  {
    var loaded := LoadCsv(lines);
    if loaded.Err? {
      return Err(loaded.error);
    }
    var data := loaded.value;
    var line := LineChartSeries(data);
    var bar := BarChart(data);
    var pie := PieChart(data);
    var analysis := AnalysisPanel(data);
    return Ok(Views(line, bar, pie, analysis));
  }
}
