/**
 * The record loader, loadCSV: the first line is a header and is discarded; every later
 * line is split on commas; a line with fewer than three fields is skipped; otherwise
 * field 0 is the sensor id, field 1 the value (Double.parseDouble) and field 2 the
 * timestamp in milliseconds (Long.parseLong). A field that does not parse throws a
 * NumberFormatException that nothing in loadCSV catches, so the whole load fails.
 */
module Loader {
  import opened Wrappers
  import opened JavaNumbers
  import opened JavaSplit

  /** SensorData: one accepted line of the file. */
  datatype Reading = Reading(sensor: string, value: real, timestamp: Long)

  /** The NumberFormatException escaping loadCSV, with the token it was thrown for. */
  datatype LoadError = NumberFormat(token: string)

  /** What one data line contributes. */
  datatype LineOutcome = Skipped | Row(reading: Reading) | Malformed(error: LoadError)

  /** Lines that reach the parsing step: those splitting into three or more fields. */
  predicate IsDataLine(line: string) { |Split(line)| >= 3 }

  /** A line that does not abort the load: skipped, or both numbers parse. */
  predicate WellFormed(line: string)
  {
    var tokens := Split(line);
    |tokens| < 3 || (ParseDouble(tokens[1]).Some? && ParseLong(tokens[2]).Some?)
  }

  /** The body of the read loop for one line (value parsed before timestamp). */
  function ParseLine(line: string): LineOutcome
  {
    var tokens := Split(line);
    if |tokens| < 3 then Skipped
    else
      match ParseDouble(tokens[1])
      case None => Malformed(NumberFormat(tokens[1]))
      case Some(value) =>
        match ParseLong(tokens[2])
        case None => Malformed(NumberFormat(tokens[2]))
        case Some(timestamp) => Row(Reading(tokens[0], value, timestamp))
  }

  /**
   * The lines after the header, read in order, each turned into an outcome by parse; the
   * first malformed one ends the load. The loader reads with parse = ParseLine.
   */
  function ReadRows(parse: string -> LineOutcome, rows: seq<string>): Result<seq<Reading>, LoadError>
  {
    if rows == [] then Ok([]) else Extend(ReadRows(parse, rows[..|rows| - 1]), parse(rows[|rows| - 1]))
  }

  /** The lines after the header, read by loadCSV's loop. */
  function LoadRows(rows: seq<string>): Result<seq<Reading>, LoadError>
  {
    ReadRows(ParseLine, rows)
  }

  /** The readings so far, after one more line has been read. */
  function Extend(sofar: Result<seq<Reading>, LoadError>, outcome: LineOutcome): Result<seq<Reading>, LoadError>
  {
    match sofar
    case Err(e) => Err(e)
    case Ok(readings) =>
      match outcome
      case Skipped => Ok(readings)
      case Row(r) => Ok(readings + [r])
      case Malformed(e) => Err(e)
  }

  /** loadCSV on the file's lines. */
  function Load(lines: seq<string>): Result<seq<Reading>, LoadError>
  {
    if lines == [] then Ok([]) else LoadRows(lines[1..])
  }

  /** The lines that produce a reading when the load succeeds, in file order. */
  function DataLines(rows: seq<string>): (d: seq<string>)
    ensures forall k :: 0 <= k < |d| ==> IsDataLine(d[k])
  {
    if rows == [] then []
    else DataLines(rows[..|rows| - 1])
         + (if IsDataLine(rows[|rows| - 1]) then [rows[|rows| - 1]] else [])
  }

  /** The reading a well-formed data line denotes. */
  predicate Denotes(line: string, r: Reading)
  {
    var tokens := Split(line);
    && |tokens| >= 3
    && r.sensor == tokens[0]
    && ParseDouble(tokens[1]) == Some(r.value)
    && ParseLong(tokens[2]) == Some(r.timestamp)
  }

  /** loadCSV's read loop: appends one reading per data line, or stops at a bad number. */
  method LoadCsv(lines: seq<string>) returns (result: Result<seq<Reading>, LoadError>)
    ensures result == Load(lines)
  {
    var data: seq<Reading> := [];
    if lines == [] {
      // the header's readLine() already returned null
      return Ok(data);
    }
    var rows := lines[1..];
    var i := 0;
    while i < |rows|
      invariant 0 <= i <= |rows|
      invariant LoadRows(rows[..i]) == Ok(data)
    {
      var tokens := Split(rows[i]);
      if |tokens| < 3 {
        LoadSkipStep(rows, i, data);
        i := i + 1;
        continue;
      }
      var value := ParseDouble(tokens[1]);
      if value.None? {
        LoadValueErrorStep(rows, i, data);
        return Err(NumberFormat(tokens[1]));
      }
      var timestamp := ParseLong(tokens[2]);
      if timestamp.None? {
        LoadTimestampErrorStep(rows, i, data);
        return Err(NumberFormat(tokens[2]));
      }
      LoadRowStep(rows, i, data);
      data := data + [Reading(tokens[0], value.value, timestamp.value)];
      i := i + 1;
    }
    assert rows[..i] == rows;
    return Ok(data);
  }

  // ----- Lemmas -------------------------------------------------------------------

  /**
   * A line is skipped exactly when it has fewer than three fields, aborts the load exactly
   * when it is not well formed, and otherwise yields the reading its fields denote.
   */
  lemma ParseLineCases(line: string)
    ensures ParseLine(line).Skipped? <==> !IsDataLine(line)
    ensures ParseLine(line).Malformed? <==> !WellFormed(line)
    ensures ParseLine(line).Row? ==> Denotes(line, ParseLine(line).reading)
  {
  }

  // The facts below about ReadRows hold whatever each line's outcome is; the loader's
  // lemmas further down instantiate them with ParseLine.

  /** One more line at the end. */
  lemma ReadSnoc(parse: string -> LineOutcome, rows: seq<string>, line: string)
    ensures ReadRows(parse, rows + [line]) == Extend(ReadRows(parse, rows), parse(line))
  {
    assert (rows + [line])[..|rows|] == rows;
    assert (rows + [line])[|rows|] == line;
  }

  /** Once a prefix of the rows has failed, the later rows change nothing. */
  lemma {:induction false} ReadErrorPersists(parse: string -> LineOutcome, rows: seq<string>, k: nat)
    requires k <= |rows|
    requires ReadRows(parse, rows[..k]).Err?
    ensures ReadRows(parse, rows) == ReadRows(parse, rows[..k])
    decreases |rows| - k
  {
    if k < |rows| {
      assert rows[..k + 1] == rows[..k] + [rows[k]];
      ReadSnoc(parse, rows[..k], rows[k]);
      ReadErrorPersists(parse, rows, k + 1);
    } else {
      assert rows[..k] == rows;
    }
  }

  /** A skipped line changes nothing, wherever it stands. */
  lemma {:induction false} ReadSkip(parse: string -> LineOutcome, b: seq<string>, line: string, after: seq<string>)
    requires parse(line).Skipped?
    ensures ReadRows(parse, b + [line] + after) == ReadRows(parse, b + after)
    decreases |after|
  {
    if after == [] {
      assert b + [line] + after == b + [line];
      assert b + after == b;
      ReadSnoc(parse, b, line);
    } else {
      var a := after[..|after| - 1];
      var x := after[|after| - 1];
      ReadSkip(parse, b, line, a);
      assert b + [line] + after == (b + [line] + a) + [x];
      assert b + after == (b + a) + [x];
      ReadSnoc(parse, b + [line] + a, x);
      ReadSnoc(parse, b + a, x);
    }
  }

  /** The rows are read without error exactly when none of them is malformed. */
  lemma {:induction false} ReadOkIff(parse: string -> LineOutcome, rows: seq<string>)
    ensures ReadRows(parse, rows).Ok? <==> forall i :: 0 <= i < |rows| ==> !parse(rows[i]).Malformed?
  {
    if rows != [] {
      var init := rows[..|rows| - 1];
      ReadOkIff(parse, init);
      assert forall i :: 0 <= i < |init| ==> init[i] == rows[i];
    }
  }

  /** A failed read stops at the first malformed row, with its error. */
  lemma {:induction false} ReadFailsAtFirst(parse: string -> LineOutcome, rows: seq<string>, e: LoadError)
    requires ReadRows(parse, rows) == Err(e)
    ensures exists i :: 0 <= i < |rows| && parse(rows[i]) == Malformed(e)
                        && forall j :: 0 <= j < i ==> !parse(rows[j]).Malformed?
  {
    var init := rows[..|rows| - 1];
    assert forall j :: 0 <= j < |init| ==> init[j] == rows[j];
    if ReadRows(parse, init).Err? {
      ReadFailsAtFirst(parse, init, e);
      var i :| 0 <= i < |init| && parse(init[i]) == Malformed(e)
               && forall j :: 0 <= j < i ==> !parse(init[j]).Malformed?;
      assert parse(rows[i]) == Malformed(e);
    } else {
      ReadOkIff(parse, init);
      assert parse(rows[|rows| - 1]) == Malformed(e);
    }
  }

  /** The rows that yield a reading, in order. */
  function RowLines(parse: string -> LineOutcome, rows: seq<string>): seq<string>
  {
    if rows == [] then []
    else RowLines(parse, rows[..|rows| - 1])
         + (if parse(rows[|rows| - 1]).Row? then [rows[|rows| - 1]] else [])
  }

  /** A successful read holds, in order, the reading of every row that yields one. */
  lemma {:induction false} ReadContents(parse: string -> LineOutcome, rows: seq<string>, readings: seq<Reading>)
    requires ReadRows(parse, rows) == Ok(readings)
    ensures |readings| == |RowLines(parse, rows)|
    ensures forall k :: 0 <= k < |readings| ==> parse(RowLines(parse, rows)[k]) == Row(readings[k])
  {
    if rows != [] {
      var init := rows[..|rows| - 1];
      var line := rows[|rows| - 1];
      var before := ReadRows(parse, init).value;
      ReadContents(parse, init, before);
      if parse(line).Row? {
        assert readings == before + [parse(line).reading];
        assert RowLines(parse, rows) == RowLines(parse, init) + [line];
      }
    }
  }

  // ----- The loader ---------------------------------------------------------------

  /** Reading the line after a prefix of the rows. */
  lemma LoadRowsStep(rows: seq<string>, i: nat)
    requires i < |rows|
    ensures LoadRows(rows[..i + 1]) == Extend(LoadRows(rows[..i]), ParseLine(rows[i]))
  {
    assert rows[..i + 1] == rows[..i] + [rows[i]];
    ReadSnoc(ParseLine, rows[..i], rows[i]);
  }

  // One iteration of loadCSV's loop, by how the line ends.

  lemma LoadSkipStep(rows: seq<string>, i: nat, data: seq<Reading>)
    requires i < |rows| && LoadRows(rows[..i]) == Ok(data)
    requires |Split(rows[i])| < 3
    ensures LoadRows(rows[..i + 1]) == Ok(data)
  {
    LoadRowsStep(rows, i);
  }

  lemma LoadValueErrorStep(rows: seq<string>, i: nat, data: seq<Reading>)
    requires i < |rows| && LoadRows(rows[..i]) == Ok(data)
    requires |Split(rows[i])| >= 3 && ParseDouble(Split(rows[i])[1]).None?
    ensures LoadRows(rows) == Err(NumberFormat(Split(rows[i])[1]))
  {
    LoadRowsStep(rows, i);
    ErrorPersists(rows, i + 1);
  }

  lemma LoadTimestampErrorStep(rows: seq<string>, i: nat, data: seq<Reading>)
    requires i < |rows| && LoadRows(rows[..i]) == Ok(data)
    requires |Split(rows[i])| >= 3 && ParseDouble(Split(rows[i])[1]).Some?
    requires ParseLong(Split(rows[i])[2]).None?
    ensures LoadRows(rows) == Err(NumberFormat(Split(rows[i])[2]))
  {
    LoadRowsStep(rows, i);
    ErrorPersists(rows, i + 1);
  }

  lemma LoadRowStep(rows: seq<string>, i: nat, data: seq<Reading>)
    requires i < |rows| && LoadRows(rows[..i]) == Ok(data)
    requires |Split(rows[i])| >= 3 && ParseDouble(Split(rows[i])[1]).Some?
    requires ParseLong(Split(rows[i])[2]).Some?
    ensures LoadRows(rows[..i + 1]) == Ok(data + [Reading(Split(rows[i])[0],
              ParseDouble(Split(rows[i])[1]).value, ParseLong(Split(rows[i])[2]).value)])
  {
    LoadRowsStep(rows, i);
  }

  /** Once the lines read so far have failed, the rest of the file changes nothing. */
  lemma ErrorPersists(rows: seq<string>, k: nat)
    requires k <= |rows|
    requires LoadRows(rows[..k]).Err?
    ensures LoadRows(rows) == LoadRows(rows[..k])
  {
    ReadErrorPersists(ParseLine, rows, k);
  }

  /** The first line never contributes: an empty file and a header-only file load nothing. */
  lemma HeaderDiscarded(header: string, other: string, rows: seq<string>)
    ensures Load([]) == Ok([]) && Load([header]) == Ok([])
    ensures Load([header] + rows) == Load([other] + rows)
  {
  }

  /** A line with fewer than three fields changes nothing, wherever it stands after the header. */
  lemma ShortLineSkipped(before: seq<string>, line: string, after: seq<string>)
    requires before != [] && !IsDataLine(line)
    ensures Load(before + [line] + after) == Load(before + after)
  {
    var b := before[1..];
    assert (before + [line] + after)[1..] == b + [line] + after;
    assert (before + after)[1..] == b + after;
    ParseLineCases(line);
    ReadSkip(ParseLine, b, line, after);
  }

  /** "a,1," after the header yields no reading and no error: split leaves two fields. */
  lemma TrailingCommaLineSkipped(header: string)
    ensures Load([header, "a,1,"]) == Ok([])
  {
    SplitTrailingExamples();
    ShortLineSkipped([header], "a,1,", []);
    assert [header] + ["a,1,"] + [] == [header, "a,1,"];
    assert [header] + [] == [header];
  }

  /** The load succeeds exactly when no data line holds a malformed number. */
  lemma LoadOkIff(lines: seq<string>)
    ensures Load(lines).Ok? <==> forall i :: 1 <= i < |lines| ==> WellFormed(lines[i])
  {
    if lines != [] {
      var rows := lines[1..];
      ReadOkIff(ParseLine, rows);
      forall i | 0 <= i < |rows| ensures WellFormed(rows[i]) <==> !ParseLine(rows[i]).Malformed? {
        ParseLineCases(rows[i]);
      }
      assert forall i :: 1 <= i < |lines| ==> rows[i - 1] == lines[i];
    }
  }

  /** When the load succeeds, the rows yielding a reading are exactly the data lines. */
  lemma {:induction false} RowLinesAreDataLines(rows: seq<string>)
    requires forall i :: 0 <= i < |rows| ==> WellFormed(rows[i])
    ensures RowLines(ParseLine, rows) == DataLines(rows)
  {
    if rows != [] {
      var init := rows[..|rows| - 1];
      assert forall i :: 0 <= i < |init| ==> init[i] == rows[i];
      RowLinesAreDataLines(init);
      ParseLineCases(rows[|rows| - 1]);
    }
  }

  /**
   * A successful load holds one reading per data line after the header, in file order,
   * each made of that line's fields 0, 1 and 2.
   */
  lemma LoadContents(lines: seq<string>, readings: seq<Reading>)
    requires Load(lines) == Ok(readings)
    ensures lines == [] ==> readings == []
    ensures lines != [] ==> |readings| == |DataLines(lines[1..])|
    ensures lines != [] ==> forall k :: 0 <= k < |readings| ==> Denotes(DataLines(lines[1..])[k], readings[k])
  {
    if lines != [] {
      var rows := lines[1..];
      ReadContents(ParseLine, rows, readings);
      ReadOkIff(ParseLine, rows);
      forall i | 0 <= i < |rows| ensures WellFormed(rows[i]) {
        ParseLineCases(rows[i]);
      }
      RowLinesAreDataLines(rows);
      forall k | 0 <= k < |readings| ensures Denotes(DataLines(rows)[k], readings[k]) {
        ParseLineCases(DataLines(rows)[k]);
      }
    }
  }

  /** A line aborts the load with the token of its field 1 or of its field 2. */
  lemma MalformedToken(line: string, e: LoadError)
    requires ParseLine(line) == Malformed(e)
    ensures IsDataLine(line)
    ensures e.token == Split(line)[1] || e.token == Split(line)[2]
  {
  }

  /**
   * A failed load names the token of the first malformed line: its value field when that
   * does not parse, else its timestamp field; every line before it is well formed.
   */
  lemma LoadFailsAtFirst(lines: seq<string>, e: LoadError)
    requires Load(lines) == Err(e)
    ensures exists i :: 1 <= i < |lines| && ParseLine(lines[i]) == Malformed(e)
                        && forall j :: 1 <= j < i ==> WellFormed(lines[j])
  {
    var rows := lines[1..];
    ReadFailsAtFirst(ParseLine, rows, e);
    var i :| 0 <= i < |rows| && ParseLine(rows[i]) == Malformed(e)
             && forall j :: 0 <= j < i ==> !ParseLine(rows[j]).Malformed?;
    assert lines[i + 1] == rows[i];
    forall j | 1 <= j < i + 1 ensures WellFormed(lines[j]) {
      assert lines[j] == rows[j - 1];
      ParseLineCases(rows[j - 1]);
    }
  }

  /** The error of a failed load is the value or timestamp field of some data line. */
  lemma LoadErrorToken(lines: seq<string>, e: LoadError)
    requires Load(lines) == Err(e)
    ensures exists i :: 1 <= i < |lines| && IsDataLine(lines[i])
                        && (e.token == Split(lines[i])[1] || e.token == Split(lines[i])[2])
  {
    LoadFailsAtFirst(lines, e);
    var i :| 1 <= i < |lines| && ParseLine(lines[i]) == Malformed(e);
    MalformedToken(lines[i], e);
  }
}
