# JSON log flattener: a Dafny model of `process_log_data`

The repository is a small Streamlit page. A user uploads a text file holding
one JSON array of item-status log records. The page turns each record into a
flat row and offers the rows as CSV. This project models the core function,
`process_log_data` in `251114_nan_project_v01.py`, and proves what it does.

- **PyJson** (`pyjson.dfy`): the Python objects `json.loads` builds, as the
  datatype `Json`. A dict is its entries in insertion order (`Dict`). The
  module also has `dict.get(key)`, which yields `None` for a missing key
  (`Get`), `d[key] = value` (`Set`), truthiness (`Truthy`) and the type name
  that an `AttributeError` reports (`TypeName`).
- **Flattener** (`flattener.dfy`): one iteration of the loop. `Flatten`
  builds the eleven-entry row dict of lines 32-50. It then runs the five
  assignments of lines 56-60 (`CopyViolation`), but only when
  `item_status_details` passes the guard of line 54 (`HasFirstDetail`). A
  record that is not a dict makes `.get` raise `AttributeError`. So does a
  first status detail that is not a dict. `Flatten` returns that exception
  as `Failure`.
- **LogProcessor** (`processor.dfy`): the whole function.
  `ProcessLogData` is a method with the source's loop. It starts from an
  empty list and appends one row per array element. A loop invariant ties
  the rows built so far to the specification function `AppendEach`, applied
  to the prefix of the array already read. `Processed` is the function form
  of the whole call. Its contract states the error paths and the shape of
  the result.

The two library calls are parameters. `loads: string -> Loaded` is what
`json.loads` does with the text: it returns a value, raises
`JSONDecodeError`, or raises some other exception. `dumps: Json -> string`
is `json.dumps`. The only fact used about it is `dumps(JNull) == "null"`,
and only in the lemmas that need it. A string that `json.dumps` returns is
the Python `str` object `JStr(dumps(x))`, so a row is itself a `Dict`.

A call ends in one of three ways (`Outcome`):
- `Table(rows)`: the DataFrame.
- `Reported(report)`: an `st.error` message and an empty DataFrame. This
  covers lines 18, 22 and 25.
- `Raised(error)`: an `AttributeError` that leaves the function uncaught.
  The page catches it at line 115.

Four points about `process_log_data` that the model keeps as the code has
them:
- The row has 11 columns, and `deboost_details` is column 6.
- A list element that is not a dict makes `record.get` raise (line 33), so
  the whole call fails.
- A first status detail that is not a dict makes `first_detail.get` raise
  (line 56); the violation columns are not left null.
- The function parses the whole text as one array; it has no line-by-line
  (JSON Lines) mode.

## Model

| member | source | states |
|---|---|---|
| `PyJson.GetAbsent` | 251114_nan_project_v01.py:33-36 | `d.get(key)` on a dict that lacks `key` is `None` |
| `PyJson.GetFirst` | 251114_nan_project_v01.py:33-36 | `d.get(key)` returns the value stored under `key` |
| `PyJson.SetThenGet` | 251114_nan_project_v01.py:56-60 | after `d[key] = v`, `d.get(key)` is `v` and every other key reads as before |
| `PyJson.SetExisting` | 251114_nan_project_v01.py:56-60 | assigning to a key already present replaces that one entry in place, so key order is kept |
| `PyJson.SetNewKey` | 251114_nan_project_v01.py:56-60 | assigning to an absent key appends one entry at the end |
| `Flattener.HasFirstDetail` | 251114_nan_project_v01.py:54 | the guard `details and isinstance(details, list) and len(details) > 0` holds exactly when `details` is a non-empty list |
| `Flattener.Flatten` | 251114_nan_project_v01.py:32-60 | a row is produced exactly when the record is a dict and, if `item_status_details` is a non-empty list, its element 0 is a dict; otherwise the result is `AttributeError` naming the type of the record, or of element 0 |
| `Flattener.FlattenFixedColumns` | 251114_nan_project_v01.py:32-50 | every row's keys are exactly the 11 columns in dict-literal order, each once, whatever keys the record had |
| `Flattener.CopyViolationInPlace` | 251114_nan_project_v01.py:56-60 | the five assignments overwrite columns 6-10 in place with element 0's values and leave columns 0-5 alone |
| `Flattener.FlattenEntries` | 251114_nan_project_v01.py:32-60 | columns 0-5 of a row are those of the initial dict; columns 6-10 are element 0's values when the guard holds, `None` otherwise |
| `Flattener.FlattenTopLevelColumns` | 251114_nan_project_v01.py:33-42 | `item_id`, `item_name`, `item_status`, `deboost` equal the record's values (`None` if absent); the two details columns are `json.dumps` of the raw value, whatever its type |
| `Flattener.AbsentDetailsDumpAsNull` | 251114_nan_project_v01.py:39-42 | when `item_status_details` or `deboost_details` is absent, its column is the text `null` |
| `Flattener.FlattenViolationColumns` | 251114_nan_project_v01.py:45-60 | each violation column is element 0's value for that key when `item_status_details` is a non-empty list, each independently `None` if absent; otherwise all five are `None` |
| `Flattener.LaterDetailsIgnored` | 251114_nan_project_v01.py:55-60 | two records whose status-detail lists share element 0 get the same violation columns: elements at index 1 and above never matter |
| `Flattener.FlattenReadsOnlySourceKeys` | 251114_nan_project_v01.py:32-60 | two dict records that agree on the six keys the rule reads give the same row or the same exception |
| `Flattener.FlattenOneDetailExample` | 251114_nan_project_v01.py:32-60 | `{"item_id":"1","item_status_details":[{"violation_type":"X"}]}` gives `item_id` "1", `violation_type` "X", `deboost_details` "null" and `None` in the other detail columns |
| `LogProcessor.AppendEachSpec` | 251114_nan_project_v01.py:29-62 | the append loop finishes exactly when no step raises, and then holds one row per element, row i from element i; otherwise it raises what the first raising element raised |
| `LogProcessor.AppendEachStops` | 251114_nan_project_v01.py:29-62 | once an element has raised, the elements after it change nothing |
| `LogProcessor.Processed` | 251114_nan_project_v01.py:12-64 | a decode error, another decoder exception or a non-list document each give an empty result with its own error; a list always ends in a table or an escaping exception, never a report; a table comes back exactly when every element flattens, with one row per element in order; otherwise the first failing element's exception escapes |
| `LogProcessor.ProcessLogData` | 251114_nan_project_v01.py:6-64 | the method with the source's loop returns exactly `Processed` of what `json.loads` made of the text |
| `LogProcessor.UniformColumns` | 251114_nan_project_v01.py:32-62 | every row of every returned table has the same 11 keys in the same order |
| `LogProcessor.ArrayOfRecordsGivesOneRowEach` | 251114_nan_project_v01.py:29-64 | an array of N records that all flatten gives a table of exactly N rows, row i from element i |
| `LogProcessor.EmptyArrayGivesNoRows` | 251114_nan_project_v01.py:10-64 | an empty array gives a table with no rows and no error |

## Left out

- The Streamlit page is not modelled: page setup, title, uploader, success
  banner, preview, download button and help text (lines 70-138). It is I/O
  and presentation. The help table at lines 122-136 lists the columns in
  another order. It is text only; the dict literal governs the order.
- The `df.empty` gate on the download (line 96) is not modelled. It is UI
  behaviour. A `Reported` outcome and an empty `Table` have no rows
  (`RowsOf`), so no download is offered for them.
- The UTF-8 decoding of the upload (line 91) is a foreign byte-decoding call
  and is not modelled.
- `json.loads` is not modelled inside. It is the parameter `loads`, and its
  exceptions are the `DecodeFailure` and `OtherFailure` cases.
- `json.dumps` is not modelled inside: separators, escaping and
  `ensure_ascii` are unknown. It is the parameter `dumps`. So the round trip
  "decoding a details column gives back the raw value" cannot be stated
  about it.
- `pd.DataFrame(...)`, `convert_df_to_csv` and `df.to_csv` (lines 64-68) are
  not modelled. They are pandas calls whose column inference and CSV quoting
  are not visible. A table is the list of row dicts.
- A JSON object holding the same key twice is not modelled. `json.loads`
  keeps one entry per key. `Dict` does not enforce that, and `Get` reads the
  first matching entry.
- JSON numbers are `JInt` or `JFloat` (a real). NaN and the infinities that
  `json.loads` accepts are not represented. Strings are sequences of Unicode
  scalar values, so a lone surrogate such as `"\ud800"`, which `json.loads`
  accepts, is not represented either. Numbers and strings are only ever
  copied or compared as keys, so only their equality matters here.
- The exception at line 115 that catches `Raised` belongs to the page and is
  not modelled.
