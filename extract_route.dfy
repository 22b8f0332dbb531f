/**
  The `/extract` route of backend/app.py without the file system and the
  model: the upload checks, then the table parsed from the decoder's text,
  each row turned into a header-to-cell dictionary.
*/
module ExtractRoute {

  import opened Wrappers
  import opened ChartAnalyzer
  import opened Uploads

  /** The three 400 replies `/extract` gives before reading the image. */
  datatype UploadError = NoImageFile | NoSelectedFile | FileTypeNotAllowed

  datatype ExtractReply =
    | Rejected(error: UploadError)
    | Extracted(title: string, headers: Row, data: seq<map<string, string>>, rawText: string)

  /** The checks `/extract` makes, in order: an `image` part, a non-empty
      file name, an allowed extension. */
  function CheckUpload(hasImage: bool, filename: string): (r: Option<UploadError>)
    ensures r.None? <==> hasImage && AllowedFile(filename)
    ensures !hasImage ==> r == Some(NoImageFile)
    ensures hasImage && filename == "" ==> r == Some(NoSelectedFile)
    ensures hasImage && filename != "" && !AllowedFile(filename) ==> r == Some(FileTypeNotAllowed)
  {
    if !hasImage then Some(NoImageFile)
    else if filename == "" then Some(NoSelectedFile)
    else if !AllowedFile(filename) then Some(FileTypeNotAllowed)
    else None
  }

  /** `row_dict` once the inner loop has seen headers[..n]. */
  function RowDictUpTo(headers: Row, row: Row, n: nat): map<string, string>
    requires n <= |headers|
  {
    if n == 0 then map[]
    else
      var d := RowDictUpTo(headers, row, n - 1);
      if n - 1 < |row| then d[headers[n - 1] := row[n - 1]] else d
  }

  /** The dictionary the inner loop builds for one row: header to cell, the last duplicate header winning. */
  function RowDict(headers: Row, row: Row): map<string, string> {
    RowDictUpTo(headers, row, |headers|)
  }

  /** Column i is the last column below n that carries the header key. */
  predicate LastWithKey(headers: Row, row: Row, n: nat, i: nat)
    requires n <= |headers|
  {
    i < n && i < |row| && forall j :: i < j < n && j < |row| ==> headers[j] != headers[i]
  }

  /** The dictionary's keys are the headers of the columns the row has. */
  lemma {:induction false} RowDictKeys(headers: Row, row: Row, n: nat)
    requires n <= |headers|
    ensures forall key :: key in RowDictUpTo(headers, row, n) <==>
      exists i :: 0 <= i < n && i < |row| && headers[i] == key
  {
    if n > 0 {
      RowDictKeys(headers, row, n - 1);
    }
  }

  /** Each key maps to the cell of the last column with that header: a later
      duplicate header overwrites an earlier one. */
  lemma {:induction false} RowDictLastWins(headers: Row, row: Row, n: nat, i: nat)
    requires n <= |headers|
    requires LastWithKey(headers, row, n, i)
    ensures headers[i] in RowDictUpTo(headers, row, n)
    ensures RowDictUpTo(headers, row, n)[headers[i]] == row[i]
  {
    if i < n - 1 {
      assert LastWithKey(headers, row, n - 1, i);
      RowDictLastWins(headers, row, n - 1, i);
    }
  }

  /** In a padded table the row has a cell for every header, so the keys are
      exactly the headers; with distinct headers every cell is kept. */
  lemma {:induction false} RectangularRowDict(headers: Row, row: Row)
    requires |row| == |headers|
    ensures RowDict(headers, row).Keys == set i | 0 <= i < |headers| :: headers[i]
    ensures (forall i, j :: 0 <= i < j < |headers| ==> headers[i] != headers[j]) ==>
      forall i :: 0 <= i < |headers| ==> RowDict(headers, row)[headers[i]] == row[i]
  {
    RowDictKeys(headers, row, |headers|);
    if forall i, j :: 0 <= i < j < |headers| ==> headers[i] != headers[j] {
      forall i | 0 <= i < |headers|
        ensures RowDict(headers, row)[headers[i]] == row[i]
      {
        assert LastWithKey(headers, row, |headers|, i);
        RowDictLastWins(headers, row, |headers|, i);
      }
    }
  }

  /** Headers padded with empty names lose cells: of the columns under `''`
      only the last survives. */
  lemma {:induction false} PaddedHeadersCollapse()
    ensures RowDict(["Year", "", ""], ["2020", "5", "7"]) == map["Year" := "2020", "" := "7"]
  {
    var h: Row := ["Year", "", ""];
    var r: Row := ["2020", "5", "7"];
    assert RowDictUpTo(h, r, 1) == map["Year" := "2020"];
    assert RowDictUpTo(h, r, 2) == map["Year" := "2020", "" := "5"];
    assert RowDictUpTo(h, r, 3) == map["Year" := "2020", "" := "5"]["" := "7"];
  }

  /** The conversion loop of `/extract`: one dictionary per row, in order. */
  method SerializeRows(headers: Row, data: seq<Row>) returns (rows: seq<map<string, string>>)
    ensures |rows| == |data|
    ensures forall j :: 0 <= j < |data| ==> rows[j] == RowDict(headers, data[j])
  {
    rows := [];
    for j := 0 to |data|
      invariant |rows| == j
      invariant forall k :: 0 <= k < j ==> rows[k] == RowDict(headers, data[k])
    {
      var row := data[j];
      var rowDict: map<string, string> := map[];
      for i := 0 to |headers|
        invariant rowDict == RowDictUpTo(headers, row, i)
      {
        if i < |row| {
          rowDict := rowDict[headers[i] := row[i]];
        }
      }
      rows := rows + [rowDict];
    }
  }

  /** `/extract` for an upload whose image decodes to `decoded`.  The
      `raw_text` field carries the decoder's raw text, which is what
      `extract_table_from_chart` returns in fifth place. */
  method ExtractEndpoint(hasImage: bool, filename: string, decoded: string) returns (reply: ExtractReply)
    ensures CheckUpload(hasImage, filename).Some? ==> reply == Rejected(CheckUpload(hasImage, filename).value)
    ensures CheckUpload(hasImage, filename).None? ==>
      var chart := Extract(decoded);
      && reply.Extracted?
      && reply.title == chart.title && reply.headers == chart.headers && reply.rawText == decoded
      && |reply.data| == |chart.data|
      && forall j :: 0 <= j < |chart.data| ==> reply.data[j] == RowDict(chart.headers, chart.data[j])
  {
    var failure := CheckUpload(hasImage, filename);
    if failure.Some? {
      return Rejected(failure.value);
    }
    var chart := ExtractTable(decoded);
    var rows := SerializeRows(chart.headers, chart.data);
    reply := Extracted(chart.title, chart.headers, rows, chart.rawText);
  }
}
