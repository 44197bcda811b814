/**
  The flatten rule of process_log_data for one element of the decoded array:
  the row dict built at 251114_nan_project_v01.py:32-50 and the copy of the
  five violation fields from the first status detail at lines 53-60.
 */
module Flattener {
  import opened PyJson

  /** The row's keys, in the order of the dict literal. */
  const Columns: seq<string> := [
    "item_id", "item_name", "item_status", "deboost",
    "item_status_details", "deboost_details",
    "violation_type", "violation_reason", "suggestion", "update_time", "fix_deadline_time"
  ]

  /** The keys copied verbatim from the record (columns 0 to 3). */
  const TopLevelKeys: seq<string> := ["item_id", "item_name", "item_status", "deboost"]

  /** The keys copied from the first status detail (columns 6 to 10). */
  const DetailKeys: seq<string> := [
    "violation_type", "violation_reason", "suggestion", "update_time", "fix_deadline_time"
  ]

  /** Every key of the record the rule ever reads. */
  const SourceKeys: seq<string> := TopLevelKeys + ["item_status_details", "deboost_details"]

  /** The row dict before the violation fields are filled in. */
  function InitialRow(record: Dict, dumps: Json -> string): Dict {
    [ ("item_id", Get(record, "item_id")),
      ("item_name", Get(record, "item_name")),
      ("item_status", Get(record, "item_status")),
      ("deboost", Get(record, "deboost")),
      ("item_status_details", JStr(dumps(Get(record, "item_status_details")))),
      ("deboost_details", JStr(dumps(Get(record, "deboost_details")))),
      ("violation_type", JNull),
      ("violation_reason", JNull),
      ("suggestion", JNull),
      ("update_time", JNull),
      ("fix_deadline_time", JNull) ]
  }

  /** The guard `details and isinstance(details, list) and len(details) > 0`. */
  function HasFirstDetail(details: Json): (b: bool)
    ensures b <==> details.JArr? && details.elems != []
  {
    Truthy(details) && details.JArr? && |details.elems| > 0
  }

  /** The five assignments `data[k] = first_detail.get(k)`, in source order. */
  function CopyViolation(data: Dict, detail: Dict): Dict {
    var d1 := Set(data, "violation_type", Get(detail, "violation_type"));
    var d2 := Set(d1, "violation_reason", Get(detail, "violation_reason"));
    var d3 := Set(d2, "suggestion", Get(detail, "suggestion"));
    var d4 := Set(d3, "update_time", Get(detail, "update_time"));
    Set(d4, "fix_deadline_time", Get(detail, "fix_deadline_time"))
  }

  /** A dict whose entries carry exactly the row's keys, in column order. */
  predicate HasColumns(row: Dict) {
    |row| == |Columns| && forall i :: 0 <= i < |row| ==> row[i].0 == Columns[i]
  }

  /** Whether the rule can run on record without `.get` raising. */
  predicate Flattenable(record: Json) {
    record.JObj? &&
    var details := Get(record.fields, "item_status_details");
    details.JArr? && details.elems != [] ==> details.elems[0].JObj?
  }

  /**
    One loop iteration of process_log_data: a dict record becomes a row with
    the eleven columns; `.get` on anything but a dict, whether the record or
    the first status detail, raises AttributeError.
   */
  function Flatten(record: Json, dumps: Json -> string): (r: Result<Dict>)
    ensures r.Success? <==> Flattenable(record)
    ensures !record.JObj? ==> r == Failure(AttributeError(TypeName(record)))
    ensures record.JObj? && r.Failure? ==>
      var details := Get(record.fields, "item_status_details");
      details.JArr? && details.elems != [] &&
      r == Failure(AttributeError(TypeName(details.elems[0])))
  {
    if !record.JObj? then Failure(AttributeError(TypeName(record)))
    else
      var data := InitialRow(record.fields, dumps);
      var details := Get(record.fields, "item_status_details");
      if HasFirstDetail(details) then
        var firstDetail := details.elems[0];
        if !firstDetail.JObj? then Failure(AttributeError(TypeName(firstDetail)))
        else Success(CopyViolation(data, firstDetail.fields))
      else Success(data)
  }

  /** Every row has the same eleven keys in the same order, whatever keys the record had. */
  lemma FlattenFixedColumns(record: Json, dumps: Json -> string)
    requires Flatten(record, dumps).Success?
    ensures Keys(Flatten(record, dumps).value) == Columns
    ensures DistinctKeys(Flatten(record, dumps).value)
  {
    var data := InitialRow(record.fields, dumps);
    InitialRowColumns(record.fields, dumps);
    var details := Get(record.fields, "item_status_details");
    if HasFirstDetail(details) {
      CopyViolationInPlace(data, details.elems[0].fields);
    }
    ColumnsRowFacts(Flatten(record, dumps).value);
  }

  lemma InitialRowColumns(record: Dict, dumps: Json -> string)
    ensures HasColumns(InitialRow(record, dumps))
  {
  }

  lemma ColumnsDistinct()
    ensures forall i, j :: 0 <= i < j < |Columns| ==> Columns[i] != Columns[j]
  {
  }

  /** A dict with the row's columns lists exactly those keys, each once. */
  lemma ColumnsRowFacts(row: Dict)
    requires HasColumns(row)
    ensures Keys(row) == Columns && DistinctKeys(row)
  {
    ColumnsDistinct();
  }

  /** Looking a column up in a row finds that column's entry. */
  lemma GetColumn(row: Dict, i: nat)
    requires HasColumns(row) && i < |Columns|
    ensures Get(row, Columns[i]) == row[i].1
  {
    ColumnsDistinct();
    GetFirst(row, i);
  }

  /** The five assignments overwrite columns 6 to 10 where they stand, and nothing else. */
  lemma CopyViolationInPlace(data: Dict, detail: Dict)
    requires HasColumns(data)
    ensures HasColumns(CopyViolation(data, detail))
    ensures forall i :: 0 <= i < 6 ==> CopyViolation(data, detail)[i] == data[i]
    ensures forall k :: 0 <= k < |DetailKeys| ==>
      CopyViolation(data, detail)[k + 6] == (DetailKeys[k], Get(detail, DetailKeys[k]))
  {
    ColumnsDistinct();
    var d1 := Set(data, "violation_type", Get(detail, "violation_type"));
    SetExisting(data, 6, Get(detail, "violation_type"));
    var d2 := Set(d1, "violation_reason", Get(detail, "violation_reason"));
    SetExisting(d1, 7, Get(detail, "violation_reason"));
    var d3 := Set(d2, "suggestion", Get(detail, "suggestion"));
    SetExisting(d2, 8, Get(detail, "suggestion"));
    var d4 := Set(d3, "update_time", Get(detail, "update_time"));
    SetExisting(d3, 9, Get(detail, "update_time"));
    SetExisting(d4, 10, Get(detail, "fix_deadline_time"));
  }

  /** Where each entry of a row comes from: columns 0 to 5 from the initial row, 6 to 10 from the first detail or None. */
  lemma FlattenEntries(record: Json, dumps: Json -> string)
    requires Flatten(record, dumps).Success?
    ensures HasColumns(Flatten(record, dumps).value)
    ensures forall i :: 0 <= i < 6 ==> Flatten(record, dumps).value[i] == InitialRow(record.fields, dumps)[i]
    ensures var details := Get(record.fields, "item_status_details");
      forall k :: 0 <= k < |DetailKeys| ==>
        Flatten(record, dumps).value[k + 6].1 ==
          if details.JArr? && details.elems != [] then Get(details.elems[0].fields, DetailKeys[k]) else JNull
  {
    var data := InitialRow(record.fields, dumps);
    InitialRowColumns(record.fields, dumps);
    var details := Get(record.fields, "item_status_details");
    if HasFirstDetail(details) {
      CopyViolationInPlace(data, details.elems[0].fields);
    }
  }

  /**
    Columns item_id, item_name, item_status and deboost hold the record's own
    values (None when the key is absent); item_status_details and
    deboost_details hold json.dumps of the raw value, whatever its type.
   */
  lemma FlattenTopLevelColumns(record: Json, dumps: Json -> string)
    requires Flatten(record, dumps).Success?
    ensures forall k :: 0 <= k < |TopLevelKeys| ==>
      Get(Flatten(record, dumps).value, TopLevelKeys[k]) == Get(record.fields, TopLevelKeys[k])
    ensures Get(Flatten(record, dumps).value, "item_status_details")
      == JStr(dumps(Get(record.fields, "item_status_details")))
    ensures Get(Flatten(record, dumps).value, "deboost_details")
      == JStr(dumps(Get(record.fields, "deboost_details")))
  {
    var row := Flatten(record, dumps).value;
    FlattenEntries(record, dumps);
    forall k | 0 <= k < |TopLevelKeys|
      ensures Get(row, TopLevelKeys[k]) == Get(record.fields, TopLevelKeys[k])
    {
      assert TopLevelKeys[k] == Columns[k];
      GetColumn(row, k);
    }
    GetColumn(row, 4);
    GetColumn(row, 5);
  }

  /**
    The five violation columns are None unless item_status_details is a
    non-empty list; then each is element 0's value for its key, None when
    element 0 lacks that key.
   */
  lemma FlattenViolationColumns(record: Json, dumps: Json -> string)
    requires Flatten(record, dumps).Success?
    ensures var details := Get(record.fields, "item_status_details");
      forall k :: 0 <= k < |DetailKeys| ==>
        Get(Flatten(record, dumps).value, DetailKeys[k]) ==
          if details.JArr? && details.elems != [] then Get(details.elems[0].fields, DetailKeys[k]) else JNull
  {
    var row := Flatten(record, dumps).value;
    FlattenEntries(record, dumps);
    forall k | 0 <= k < |DetailKeys|
      ensures Get(row, DetailKeys[k]) == row[k + 6].1
    {
      assert DetailKeys[k] == Columns[k + 6];
      GetColumn(row, k + 6);
    }
  }

  /** An absent item_status_details or deboost_details key serialises as the text null. */
  lemma AbsentDetailsDumpAsNull(record: Json, dumps: Json -> string)
    requires dumps(JNull) == "null"
    requires Flatten(record, dumps).Success?
    ensures "item_status_details" !in Keys(record.fields) ==>
      Get(Flatten(record, dumps).value, "item_status_details") == JStr("null")
    ensures "deboost_details" !in Keys(record.fields) ==>
      Get(Flatten(record, dumps).value, "deboost_details") == JStr("null")
  {
    FlattenTopLevelColumns(record, dumps);
    GetAbsent(record.fields, "item_status_details");
    GetAbsent(record.fields, "deboost_details");
  }

  /** Elements of item_status_details after the first never reach the violation columns. */
  lemma LaterDetailsIgnored(record1: Json, record2: Json, dumps: Json -> string)
    requires Flatten(record1, dumps).Success? && Flatten(record2, dumps).Success?
    requires var details1 := Get(record1.fields, "item_status_details");
      var details2 := Get(record2.fields, "item_status_details");
      details1.JArr? && details2.JArr? && details1.elems != [] && details2.elems != [] &&
      details1.elems[0] == details2.elems[0]
    ensures forall k :: 0 <= k < |DetailKeys| ==>
      Get(Flatten(record1, dumps).value, DetailKeys[k]) == Get(Flatten(record2, dumps).value, DetailKeys[k])
  {
    FlattenViolationColumns(record1, dumps);
    FlattenViolationColumns(record2, dumps);
  }

  /** The row depends on no key of the record other than the six it reads. */
  lemma FlattenReadsOnlySourceKeys(record1: Json, record2: Json, dumps: Json -> string)
    requires record1.JObj? && record2.JObj?
    requires forall k :: 0 <= k < |SourceKeys| ==>
      Get(record1.fields, SourceKeys[k]) == Get(record2.fields, SourceKeys[k])
    ensures Flatten(record1, dumps) == Flatten(record2, dumps)
  {
    assert SourceKeys[0] == "item_id" && SourceKeys[1] == "item_name";
    assert SourceKeys[2] == "item_status" && SourceKeys[3] == "deboost";
    assert SourceKeys[4] == "item_status_details" && SourceKeys[5] == "deboost_details";
    assert InitialRow(record1.fields, dumps) == InitialRow(record2.fields, dumps);
  }

  /** A record whose first status detail names only a violation type. */
  lemma FlattenOneDetailExample(dumps: Json -> string)
    requires dumps(JNull) == "null"
    ensures var detail := JObj([("violation_type", JStr("X"))]);
      var record := JObj([("item_id", JStr("1")), ("item_status_details", JArr([detail]))]);
      var r := Flatten(record, dumps);
      r.Success? &&
      Get(r.value, "item_id") == JStr("1") &&
      Get(r.value, "item_name") == JNull &&
      Get(r.value, "item_status") == JNull &&
      Get(r.value, "deboost") == JNull &&
      Get(r.value, "deboost_details") == JStr("null") &&
      Get(r.value, "item_status_details") == JStr(dumps(JArr([detail]))) &&
      Get(r.value, "violation_type") == JStr("X") &&
      Get(r.value, "violation_reason") == JNull &&
      Get(r.value, "suggestion") == JNull &&
      Get(r.value, "update_time") == JNull &&
      Get(r.value, "fix_deadline_time") == JNull
  {
    var detail := JObj([("violation_type", JStr("X"))]);
    var record := JObj([("item_id", JStr("1")), ("item_status_details", JArr([detail]))]);
    assert Get(record.fields, "item_status_details") == JArr([detail]);
    FlattenTopLevelColumns(record, dumps);
    FlattenViolationColumns(record, dumps);
    assert TopLevelKeys[0] == "item_id" && TopLevelKeys[1] == "item_name";
    assert TopLevelKeys[2] == "item_status" && TopLevelKeys[3] == "deboost";
    assert DetailKeys[0] == "violation_type" && DetailKeys[1] == "violation_reason";
    assert DetailKeys[2] == "suggestion" && DetailKeys[3] == "update_time";
    assert DetailKeys[4] == "fix_deadline_time";
  }
}
