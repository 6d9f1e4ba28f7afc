/** The row values the Add and Update forms write back to the sheet. The sheet calls themselves
    (append, read one row, write a range, delete) are not part of this model; what the widgets
    return is passed in as parameters. */
module Crud {

  import opened Wrappers
  import opened Calendar
  import opened Table

  /** Add Row: one entry per header, the Date one the picked date as `YYYY-MM-DD` and the others
      what was typed for that header. The entries are filled into a dictionary in header order
      and appended in the dictionary's insertion order, which is header order. */
  method BuildAddRow(typed: string -> string, picked: ValidDate) returns (values: seq<string>)
    ensures |values| == |ExpectedHeaders|
    ensures values[DateColumn] == FormatIsoDate(picked)
    ensures forall i :: 0 <= i < |ExpectedHeaders| && i != DateColumn ==> values[i] == typed(ExpectedHeaders[i])
    ensures ParseIsoDate(values[DateColumn]) == Some(picked)
  {
    ExpectedHeadersFacts();
    var newRow: map<string, string> := map[];
    for i := 0 to |ExpectedHeaders|
      invariant newRow.Keys == set j | 0 <= j < i :: ExpectedHeaders[j]
      invariant forall j :: 0 <= j < i ==>
        newRow[ExpectedHeaders[j]] == if ExpectedHeaders[j] == "Date" then FormatIsoDate(picked) else typed(ExpectedHeaders[j])
    {
      var col := ExpectedHeaders[i];
      if col == "Date" {
        newRow := newRow[col := FormatIsoDate(picked)];
      } else {
        newRow := newRow[col := typed(col)];
      }
    }
    values := seq(|ExpectedHeaders|, i requires 0 <= i < |ExpectedHeaders| => newRow[ExpectedHeaders[i]]);
    ParseFormatRoundTrip(picked);
  }

  /** Update Row, form: the value shown for each header is the stored one, or "" past the end
      of the stored row; `edits[i]` is what the user typed over it, None when untouched. */
  method CollectUpdateForm(rowData: seq<string>, edits: seq<Option<string>>) returns (updated: seq<string>)
    requires |edits| == |ExpectedHeaders|
    ensures |updated| == |ExpectedHeaders|
    ensures forall i :: 0 <= i < |ExpectedHeaders| ==>
      updated[i] == (if edits[i].Some? then edits[i].value else if i < |rowData| then rowData[i] else "")
  {
    updated := [];
    for idx := 0 to |ExpectedHeaders|
      invariant |updated| == idx
      invariant forall i :: 0 <= i < idx ==>
        updated[i] == (if edits[i].Some? then edits[i].value else if i < |rowData| then rowData[i] else "")
    {
      var shown := if idx < |rowData| then rowData[idx] else "";
      var value := if edits[idx].Some? then edits[idx].value else shown;
      updated := updated + [value];
    }
  }

  /** Update Row, merge: position i < 8 of the stored row is overwritten with the form's value
      when it exists and appended otherwise; stored values past the eighth stay. */
  method MergeUpdate(rowData: seq<string>, updated: seq<string>) returns (merged: seq<string>)
    requires |updated| == |ExpectedHeaders|
    ensures |merged| == if |rowData| < 8 then 8 else |rowData|
    ensures merged[..8] == updated
    ensures merged[8..] == rowData[if |rowData| < 8 then |rowData| else 8..]
  {
    merged := rowData;
    for idx := 0 to |ExpectedHeaders|
      invariant |merged| == if |rowData| < idx then idx else |rowData|
      invariant forall i :: 0 <= i < idx ==> merged[i] == updated[i]
      invariant forall i :: idx <= i < |rowData| ==> merged[i] == rowData[i]
    {
      if idx < |merged| {
        merged := merged[idx := updated[idx]];
      } else {
        merged := merged + [updated[idx]];
      }
    }
  }

  /** The row written back by Update: fields the user left untouched keep their stored value
      ("" where the stored row was shorter), edited fields take the edit, and values past the
      eighth column are kept. A form left untouched writes the stored row back, padded with "". */
  method UpdateRow(rowNumber: int, rowData: seq<string>, edits: seq<Option<string>>) returns (written: seq<string>)
    requires rowNumber >= 2
    requires |edits| == |ExpectedHeaders|
    ensures |written| == if |rowData| < 8 then 8 else |rowData|
    ensures forall i :: 0 <= i < 8 && edits[i].Some? ==> written[i] == edits[i].value
    ensures forall i :: 0 <= i < 8 && edits[i].None? && i < |rowData| ==> written[i] == rowData[i]
    ensures forall i :: 0 <= i < 8 && edits[i].None? && i >= |rowData| ==> written[i] == ""
    ensures forall i :: 8 <= i < |rowData| ==> written[i] == rowData[i]
    ensures (forall i :: 0 <= i < 8 ==> edits[i].None?) ==>
      written == rowData + seq(|written| - |rowData|, _ => "")
  {
    var updated := CollectUpdateForm(rowData, edits);
    written := MergeUpdate(rowData, updated);
    assert forall i :: 0 <= i < 8 ==> written[i] == written[..8][i];
    assert forall i :: 8 <= i < |rowData| ==> written[i] == written[8..][i - 8];
  }
}
