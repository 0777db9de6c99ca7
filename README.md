# Sensor dashboard: the data behind the charts

This project models the data path of `SensorDashboard.java`:

- **Loading the CSV file (`loadCSV`).**
  - The first line is a header and is discarded.
  - Every later line is cut with `String.split(",")`.
  - A line with fewer than three fields is skipped.
  - Otherwise field 0 is the sensor id, field 1 goes through `Double.parseDouble` and field 2 through `Long.parseLong`.
  - A `NumberFormatException` is not caught, so a single bad number aborts the whole load.
- **Grouping.** The bar chart, the pie chart and the analysis panel each group the readings by sensor with `computeIfAbsent(...).add(...)`.
- **Line chart.** One `TimeSeries` per sensor. Every reading is added with `addOrUpdate` at the whole second containing its timestamp, so the last reading within a second wins and points stay in ascending order.
- **Bar chart and pie chart.** The per-sensor average is computed as `average().orElse(0)`. The pie chart's weights are the same averages as the bar chart's.
- **Analysis panel.** The analysis panel computes the average, minimum and maximum per sensor, each with `orElse(0)`.
- **`createDashboard`.** It loads once and builds every tab from the same readings.

## Modules

| module | contents |
|---|---|
| `Wrappers` | `Option` and `Result` |
| `JavaNumbers` | `Long.parseLong` (radix 10) and `Double.parseDouble` on decimal literals, with `String.trim()` |
| `JavaSplit` | `String.split(",")` |
| `Loader` | specification function `Load`, the imperative read loop `LoadCsv`, and its properties |
| `Grouping` | the grouping loop `GroupBySensor`, its specification `Groups` and its properties |
| `TimeSeries` | `addOrUpdate`, the line chart's loop `LineChartSeries`, and the last-value-wins property |
| `Stats` | mean, minimum and maximum with their `orElse(0)` fallbacks |
| `Dashboard` | the four tabs and `BuildDashboard` |

Modelling choices:
- **Values are exact `real`s.**
- **Timestamps are Java `long`s.** They use the subset type `JavaNumbers.Long`.
- **A file is the sequence of its lines.**
- **Errors are values.** The exception that escapes `loadCSV` is the `Err` value of a `Result`.
- **HashMap iteration order is a nondeterministic choice.** The loops over `entrySet()` pick any key not yet visited. Their results are maps, so the order cannot show.

Intended behaviour that the code does not follow (the model follows the code):

- **Empty sensor ids.** Every reading's sensor id was meant to be non-empty. The code takes field 0 verbatim, so `",1.0,1000"` gives a reading with the empty sensor id.
- **Key order.** Sensors were meant to be kept in order of first appearance. The code uses `HashMap`, which keeps no order, so the model's maps have none.
- **IOError.** An `IOError` was meant to be reported distinctly from a parse error. The code prints the stack trace and returns whatever was read. That path is not modelled; see "Left out".

## Model

| member | source | states |
|---|---|---|
| `JavaSplit.Split` | SensorDashboard.java:43 | `line.split(",")`. Its contract is carried by `SplitIsPrefixOfFields`, `TrailingCommaDropped` and the two example lemmas. |
| `JavaSplit.Fields` | SensorDashboard.java:43 | There is at least one field, and no field contains a comma. |
| `JavaSplit.DropTrailingEmpty` | SensorDashboard.java:43 | The result is a prefix of the fields and does not end in an empty field. Everything dropped is empty. |
| `JavaSplit.JoinFields` | SensorDashboard.java:43 | Joining a line's fields with commas gives the line back. |
| `JavaSplit.FieldsJoin` | SensorDashboard.java:43 | Cutting a comma-joined list of comma-free fields gives exactly those fields back. |
| `JavaSplit.SplitIsPrefixOfFields` | SensorDashboard.java:43 | A line without commas splits into itself. Otherwise split keeps the fields up to the last non-empty one, and every dropped field is empty. |
| `JavaSplit.TrailingCommaDropped` | SensorDashboard.java:43 | A comma added at the end of a non-empty line does not change its split. |
| `JavaSplit.SplitEmptyExamples` | SensorDashboard.java:43-44 | `""` splits into one empty field. `","` splits into no fields. |
| `JavaSplit.SplitTrailingExamples` | SensorDashboard.java:43-44 | `"a,1,"` splits into two fields. `"a,,1"` keeps its inner empty field, giving three. |
| `JavaNumbers.ParseLong` | SensorDashboard.java:47 | `Long.parseLong`. Its contract is carried by `LongRoundTrip`, `WhitespaceAsymmetry` and `TimestampExamples`. |
| `JavaNumbers.ParseDouble` | SensorDashboard.java:46 | `Double.parseDouble`. Its contract is carried by `LongIsDouble`, `PointedLiteral`, `DecimalLiteral`, `WhitespaceAsymmetry` and `ValueExamples`. |
| `JavaNumbers.Trim` | SensorDashboard.java:46 | The result has no blank character at either end and is no longer than the input. |
| `JavaNumbers.TrimPadding` | SensorDashboard.java:46 | Trimming removes exactly the blank padding around a trimmed string. |
| `JavaNumbers.DigitsRoundTrip` | SensorDashboard.java:47 | The decimal digits of a natural number read back as that number. |
| `JavaNumbers.LongRoundTrip` | SensorDashboard.java:47 | `Long.parseLong` reads back every long that `Long.toString` writes, negative ones included. |
| `JavaNumbers.TimestampExamples` | SensorDashboard.java:47 | `"1000"` parses to 1000. `" 1000"` is rejected, because `parseLong` does not trim. |
| `JavaNumbers.LongIsDouble` | SensorDashboard.java:46-47 | Every token that `Long.parseLong` accepts is accepted by `Double.parseDouble`, with the same value. |
| `JavaNumbers.PointedLiteral` | SensorDashboard.java:46 | A token `<digits>.<digits>` parses to the value of all its digits scaled down by the number of fractional digits. |
| `JavaNumbers.DecimalLiteral` | SensorDashboard.java:46 | A token `n.f`, with n written as a natural number, parses to (n * 10^\|f\| + f) / 10^\|f\|: the whole part plus the fraction. |
| `JavaNumbers.WhitespaceAsymmetry` | SensorDashboard.java:46-47 | Blank padding around an integer token makes `Long.parseLong` fail, while `Double.parseDouble` still reads the same value. |
| `JavaNumbers.ValueExamples` | SensorDashboard.java:46 | `"abc"` and the empty token are not numbers. |
| `Loader.ParseLine` | SensorDashboard.java:43-48 | The body of the read loop for one line. Its contract is carried by `ParseLineCases` and `MalformedToken`. |
| `Loader.Load` | SensorDashboard.java:38-54 | `loadCSV` on the file's lines. Its contract is carried by `HeaderDiscarded`, `ShortLineSkipped`, `LoadOkIff`, `LoadContents`, `LoadFailsAtFirst` and `LoadErrorToken`. `LoadCsv` is proved equal to it. |
| `Loader.ParseLineCases` | SensorDashboard.java:43-48 | A line is skipped exactly when it has fewer than three fields. It aborts exactly when field 1 or field 2 does not parse. Otherwise it yields the reading made of fields 0, 1 and 2. |
| `Loader.DataLines` | SensorDashboard.java:43-44 | Every line it keeps splits into at least three fields. |
| `Loader.LoadCsv` | SensorDashboard.java:38-54 | The imperative read loop returns exactly `Load(lines)`: the readings, or the first error. |
| `Loader.HeaderDiscarded` | SensorDashboard.java:41-42 | An empty file and a header-only file load nothing. The header's contents never matter. |
| `Loader.ShortLineSkipped` | SensorDashboard.java:43-44 | A line after the header with fewer than three fields can be removed without changing the load's outcome, wherever it stands. |
| `Loader.TrailingCommaLineSkipped` | SensorDashboard.java:43-44 | The line `"a,1,"` yields neither a reading nor an error. |
| `Loader.ErrorPersists` | SensorDashboard.java:42-50 | Once the lines read so far have failed, the rest of the file does not change the outcome. |
| `Loader.LoadOkIff` | SensorDashboard.java:42-50 | The load succeeds if and only if every line after the header is either skipped or has two parsable numbers. |
| `Loader.LoadContents` | SensorDashboard.java:42-48 | A successful load has one reading per line of three or more fields, in file order. Each reading is made of its line's fields 0, 1 and 2. |
| `Loader.MalformedToken` | SensorDashboard.java:43-47 | A line that aborts the load has at least three fields. The error carries its field 1 or its field 2. |
| `Loader.LoadFailsAtFirst` | SensorDashboard.java:42-50 | A failed load fails with the error of some line. Every line before it is well formed. |
| `Loader.LoadErrorToken` | SensorDashboard.java:46-47 | The token a failed load reports is field 1 or field 2 of some data line. |
| `Grouping.Groups` | SensorDashboard.java:70-73 | The map the grouping loop leaves behind. Its contract is carried by `SensorsMembership`, `GroupsNonEmpty`, `SensorValuesSubsequence` and `GroupSizesSum`. `GroupBySensor` is proved equal to it. |
| `Grouping.Positions` | SensorDashboard.java:71-72 | The indices are in range, ascending, and all of the given sensor's readings. |
| `Grouping.GroupBySensor` | SensorDashboard.java:70-73 | The loop's map has one key per sensor that occurs. It maps each sensor to that sensor's values in input order, and no group is empty. |
| `Grouping.SensorsMembership` | SensorDashboard.java:70-73 | A sensor is a key exactly when some reading carries it. |
| `Grouping.SensorValuesEmptyIff` | SensorDashboard.java:72 | A sensor's group is empty exactly when the sensor has no reading. |
| `Grouping.GroupsNonEmpty` | SensorDashboard.java:72 | A group is created only together with its first value. |
| `Grouping.GroupsOfNothing` | SensorDashboard.java:70-73 | No readings give an empty map. |
| `Grouping.SensorValuesSubsequence` | SensorDashboard.java:71-72 | The k-th value of a group is the value of that sensor's k-th reading, and every reading of the sensor is used. |
| `Grouping.SensorValuesAppend` | SensorDashboard.java:71-72 | Grouping two lists one after the other concatenates each sensor's values. |
| `Grouping.GroupsSnoc` | SensorDashboard.java:72 | One more reading appends its value to its sensor's group, creating the group if it is absent. |
| `Grouping.GroupSizesSum` | SensorDashboard.java:70-73 | The group sizes add up to the number of readings. |
| `TimeSeries.SeriesMap` | SensorDashboard.java:58-62 | The map of series the line chart's loop leaves behind. Its contract is carried by `Series`, `LatestValueIsLast` and `SeriesSize`. `LineChartSeries` is proved equal to it. |
| `TimeSeries.SecondOf` | SensorDashboard.java:61 | The second contains the millisecond timestamp, rounding down for negative timestamps too. |
| `TimeSeries.AddOrUpdate` | SensorDashboard.java:61 | The series stays strictly ascending. The second is added, or kept if already present, and the length grows only for a new second. The second then holds the new value, and every other second keeps its old value. |
| `TimeSeries.Series` | SensorDashboard.java:59-62 | A sensor's series is ascending. It has a point exactly for the seconds of its readings, each holding the value of the last reading in that second. |
| `TimeSeries.LineChartSeries` | SensorDashboard.java:58-62 | The loop builds one series per sensor that occurs. Each series is ascending, with exactly the sensor's seconds, and the latest value in each. |
| `TimeSeries.OnePointPerSecond` | SensorDashboard.java:61 | An ascending series has one point per distinct second. |
| `TimeSeries.SeriesSize` | SensorDashboard.java:59-62 | A sensor's series has as many points as the sensor has distinct seconds. |
| `TimeSeries.BucketsMembership` | SensorDashboard.java:60-61 | A second belongs to a sensor exactly when some reading of that sensor falls in it. |
| `TimeSeries.LatestValueIsLast` | SensorDashboard.java:59-61 | The value at a second is that of a reading of the sensor in that second, and no later reading of the sensor falls in it. |
| `TimeSeries.SeriesMapSnoc` | SensorDashboard.java:60-61 | One more reading creates its sensor's series if it is absent, then applies addOrUpdate to it. |
| `Stats.Mean` | SensorDashboard.java:75 | An empty list gives 0. Otherwise the mean times the count is the sum. |
| `Stats.Least` | SensorDashboard.java:105 | The result is one of the values and at most every value. |
| `Stats.Greatest` | SensorDashboard.java:106 | The result is one of the values and at least every value. |
| `Stats.Min` | SensorDashboard.java:105 | An empty list gives 0. Otherwise the result is a value of the list and at most every value. |
| `Stats.Max` | SensorDashboard.java:106 | An empty list gives 0. Otherwise the result is a value of the list and at least every value. |
| `Stats.SumBounds` | SensorDashboard.java:75 | The sum of n values between lo and hi lies between lo * n and hi * n. |
| `Stats.MeanBetweenMinAndMax` | SensorDashboard.java:104-106 | For a non-empty list, min <= average <= max. |
| `Stats.ConstantValues` | SensorDashboard.java:104-106 | When all values are equal, so are the average, the minimum and the maximum. |
| `Stats.ThreeValues` | SensorDashboard.java:104-106 | The values 10, 20 and 30 give average 20, minimum 10 and maximum 30. |
| `Dashboard.AverageEach` | SensorDashboard.java:74-76 | The result has one average per group, each the mean of that group's values. |
| `Dashboard.StatsEach` | SensorDashboard.java:103-106 | The result has one (average, minimum, maximum) triple per group. For every non-empty group, minimum <= average <= maximum. |
| `Dashboard.BarChart` | SensorDashboard.java:68-77 | The bar chart has one bar per sensor. Each bar is the mean of that sensor's values and lies between their minimum and maximum. |
| `Dashboard.PieChart` | SensorDashboard.java:82-90 | The pie chart has one weight per sensor, each the mean of that sensor's values. |
| `Dashboard.AnalysisPanel` | SensorDashboard.java:100-106 | The analysis panel has one entry per sensor. The minimum and the maximum are values of the sensor, with min <= average <= max. |
| `Dashboard.BuildDashboard` | SensorDashboard.java:21-33 | The dashboard fails exactly when the load fails, with the same error. Otherwise the following hold: <br>• the line chart is the series map of the loaded readings; <br>• each bar is the mean of that sensor's loaded values; <br>• the pie chart equals the bar chart; <br>• each analysis entry is the mean, minimum and maximum of that sensor's loaded values; <br>• all tabs have the same sensors; <br>• the analysis average equals the bar height. |

## Left out

- The Swing frame, the tabbed pane, the event-thread scheduling and the chart titles are user interface and are not modelled. This covers lines 17-24, 28-35, 97-99 and 112-114.
- JFreeChart's dataset and chart objects are foreign code and are not modelled. This covers `addSeries`, `addValue`, `setValue`, `createTimeSeriesChart`, `createBarChart`, `createPieChart` and `ChartPanel`. The model stops at the data handed to them.
- The file is given as its sequence of lines. Opening and reading it is I/O.
- The `IOException` path, which prints a stack trace and returns the readings read so far, is not modelled.
- The analysis text itself is not modelled: the `%.2f` formatting, the labels and the emoji. The model stops at the three numbers per sensor.
- `JavaNumbers.ParseDouble` differs from `Double.parseDouble`:
  - It accepts only decimal literals.
  - `NaN`, `Infinity` and hexadecimal floating-point literals are rejected, though Java accepts them.
  - Values are exact reals, so parsing does not round to the nearest double.
- `JavaNumbers.ParseLong` accepts only the ASCII digits `0`-`9`. Java's `Character.digit` also accepts other Unicode decimal digits.
- `Stats.Mean`, `Stats.Min` and `Stats.Max` compute over exact reals. They do not model floating-point rounding, or the NaN and infinity behaviour of Java doubles.
- `TimeSeries.LineChartSeries` models the chart's `TimeSeries` objects as values in a map; the in-place updates through `seriesMap.get(...)` are the same, since no series is shared.
  - It also leaves out `TimeSeries`'s own limits: the maximum item count and age, and the year range that `Second` and `Day` accept.
  - It takes seconds as seconds since the epoch. This matches a default time zone with a fixed offset of whole seconds, with no daylight-saving change.
  - It does not model the repeated hour when daylight saving time ends. `Second` is built from the calendar fields of the default time zone, so two instants of that hour that carry the same fields become one `Second`, and `addOrUpdate` merges them into one point. The model keeps two.
- `Dashboard.AverageEach` and `Dashboard.StatsEach` visit keys in an unspecified order, as `HashMap.entrySet()` does. They do not model any particular hash order.
