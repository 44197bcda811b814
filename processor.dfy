/**
  process_log_data (251114_nan_project_v01.py:6-64): decode the uploaded
  text as one JSON document, insist that it is a list, and flatten each
  element into one row, in order.

  The two library calls are parameters: `loads` stands for json.loads
  applied to the text, `dumps` for json.dumps.
 */
module LogProcessor {
  import opened PyJson
  import opened Flattener

  /** What json.loads does with the text: returns a value, or raises. */
  datatype Loaded =
    | Parsed(value: Json)
    | DecodeFailure(message: string)  // json.JSONDecodeError
    | OtherFailure(message: string)   // any other exception from the decoder

  /** The error shown with st.error before an empty DataFrame is returned. */
  datatype Report =
    | NotAList                        // valid JSON, but not an array
    | DecodeError(message: string)    // the text is not valid JSON
    | Unexpected(message: string)     // any other exception inside the try

  /** How one call ends. */
  datatype Outcome =
    | Table(rows: seq<Dict>)          // the DataFrame built from the rows
    | Reported(report: Report)        // an error was shown; the DataFrame is empty
    | Raised(error: PyError)          // an exception escapes to the caller

  /** The rows of the returned DataFrame; a call that raises returns none. */
  function RowsOf(out: Outcome): seq<Dict> {
    if out.Table? then out.rows else []
  }

  /**
    A `for` loop that appends step(x) for each x in order, where step may
    raise: the first exception ends the loop and nothing is returned.
   */
  function AppendEach<T>(xs: seq<Json>, step: Json -> Result<T>): Result<seq<T>>
    decreases |xs|
  {
    if xs == [] then Success([])
    else
      match AppendEach(xs[..|xs| - 1], step)
      case Failure(e) => Failure(e)
      case Success(ys) =>
        match step(xs[|xs| - 1])
        case Failure(e) => Failure(e)
        case Success(y) => Success(ys + [y])
  }

  /**
    The loop finishes exactly when no step raises, and then holds one result
    per element, result i from element i; otherwise it raises what the first
    raising step raised.
   */
  lemma {:induction false} AppendEachSpec<T>(xs: seq<Json>, step: Json -> Result<T>)
    ensures var r := AppendEach(xs, step);
      (r.Success? <==> forall i :: 0 <= i < |xs| ==> step(xs[i]).Success?) &&
      (r.Success? ==>
        |r.value| == |xs| && forall i :: 0 <= i < |xs| ==> step(xs[i]) == Success(r.value[i])) &&
      (r.Failure? ==>
        exists i :: 0 <= i < |xs| && step(xs[i]) == Failure(r.error) &&
          forall j :: 0 <= j < i ==> step(xs[j]).Success?)
    decreases |xs|
  {
    if xs != [] {
      var n := |xs| - 1;
      var init := xs[..n];
      AppendEachSpec(init, step);
      assert forall i :: 0 <= i < n ==> init[i] == xs[i];
      var ri := AppendEach(init, step);
      if ri.Failure? {
        var i :| 0 <= i < n && step(init[i]) == Failure(ri.error) &&
          forall j :: 0 <= j < i ==> step(init[j]).Success?;
        assert step(xs[i]) == Failure(ri.error);
      } else if step(xs[n]).Failure? {
        assert forall j :: 0 <= j < n ==> step(xs[j]).Success?;
      }
    }
  }

  /** Once a step has raised, the elements after it change nothing. */
  lemma {:induction false} AppendEachStops<T>(xs: seq<Json>, n: nat, step: Json -> Result<T>)
    requires n <= |xs|
    requires AppendEach(xs[..n], step).Failure?
    ensures AppendEach(xs, step) == AppendEach(xs[..n], step)
    decreases |xs|
  {
    if n < |xs| {
      var init := xs[..|xs| - 1];
      assert init[..n] == xs[..n];
      AppendEachStops(init, n, step);
    } else {
      assert xs[..n] == xs;
    }
  }

  /** The loop of process_log_data: Flatten applied to each element of the array. */
  function FlattenAll(records: seq<Json>, dumps: Json -> string): Result<seq<Dict>> {
    AppendEach(records, (record: Json) => Flatten(record, dumps))
  }

  /** The whole of process_log_data, given what json.loads made of the text. */
  function Processed(loaded: Loaded, dumps: Json -> string): (out: Outcome)
    ensures loaded.DecodeFailure? ==> out == Reported(DecodeError(loaded.message))
    ensures loaded.OtherFailure? ==> out == Reported(Unexpected(loaded.message))
    ensures loaded.Parsed? && !loaded.value.JArr? ==> out == Reported(NotAList)
    ensures out.Table? || out.Raised? ==> loaded.Parsed? && loaded.value.JArr?
    ensures loaded.Parsed? && loaded.value.JArr? ==> out.Table? || out.Raised?
    ensures out.Table? ==>
      |out.rows| == |loaded.value.elems| &&
      forall i :: 0 <= i < |out.rows| ==> Flatten(loaded.value.elems[i], dumps) == Success(out.rows[i])
    ensures loaded.Parsed? && loaded.value.JArr? ==>
      (out.Table? <==> forall i :: 0 <= i < |loaded.value.elems| ==> Flattenable(loaded.value.elems[i]))
    ensures out.Raised? ==>
      exists i :: 0 <= i < |loaded.value.elems| &&
        Flatten(loaded.value.elems[i], dumps) == Failure(out.error) &&
        forall j :: 0 <= j < i ==> Flattenable(loaded.value.elems[j])
  {
    match loaded
    case DecodeFailure(m) => Reported(DecodeError(m))
    case OtherFailure(m) => Reported(Unexpected(m))
    case Parsed(v) =>
      if !v.JArr? then Reported(NotAList)
      else
        AppendEachSpec(v.elems, (record: Json) => Flatten(record, dumps));
        match FlattenAll(v.elems, dumps)
        case Success(rows) => Table(rows)
        case Failure(e) => Raised(e)
  }

  /**
    The function itself: decode, check for a list, then append one row per
    element. Its result is exactly Processed of what json.loads returned.
   */
  method ProcessLogData(fileContent: string, loads: string -> Loaded, dumps: Json -> string)
    returns (out: Outcome)
    ensures out == Processed(loads(fileContent), dumps)
  {
    var processedRecords: seq<Dict> := [];
    var dataArray: seq<Json>;
    match loads(fileContent) {
      case DecodeFailure(m) =>
        return Reported(DecodeError(m));
      case OtherFailure(m) =>
        return Reported(Unexpected(m));
      case Parsed(v) =>
        if !v.JArr? {
          return Reported(NotAList);
        }
        dataArray := v.elems;
    }
    var flatten := (record: Json) => Flatten(record, dumps);
    for i := 0 to |dataArray|
      invariant AppendEach(dataArray[..i], flatten) == Success(processedRecords)
    {
      assert dataArray[..i + 1][..i] == dataArray[..i];
      var record := dataArray[i];
      match flatten(record) {
        case Failure(e) =>
          AppendEachStops(dataArray, i + 1, flatten);
          return Raised(e);
        case Success(data) =>
          processedRecords := processedRecords + [data];
      }
    }
    assert dataArray[..|dataArray|] == dataArray;
    return Table(processedRecords);
  }

  /** Every row of a returned table has the same eleven keys in the same order. */
  lemma UniformColumns(loaded: Loaded, dumps: Json -> string)
    ensures forall row :: row in RowsOf(Processed(loaded, dumps)) ==> Keys(row) == Columns
  {
    var out := Processed(loaded, dumps);
    forall row | row in RowsOf(out) ensures Keys(row) == Columns {
      var i :| 0 <= i < |out.rows| && out.rows[i] == row;
      FlattenFixedColumns(loaded.value.elems[i], dumps);
    }
  }

  /** An array of N dicts none of whose first status details is a non-dict gives N rows, row i from element i. */
  lemma ArrayOfRecordsGivesOneRowEach(records: seq<Json>, dumps: Json -> string)
    requires forall i :: 0 <= i < |records| ==> Flattenable(records[i])
    ensures var out := Processed(Parsed(JArr(records)), dumps);
      out.Table? && |out.rows| == |records| &&
      forall i :: 0 <= i < |records| ==> Success(out.rows[i]) == Flatten(records[i], dumps)
  {
  }

  /** An empty array gives a table with no rows and no error. */
  lemma EmptyArrayGivesNoRows(dumps: Json -> string)
    ensures Processed(Parsed(JArr([])), dumps) == Table([])
  {
  }
}
