/** The Dataset container of DatasetValue rows and its CSV loader. The file
 *  is given as its lines (an unreadable file has none); std::mktime is a
 *  parameter. */
module Datasets {
  import opened Results
  import opened TextParse
  import opened DatasetValues

  datatype Dataset = Dataset(rows: seq<DatasetValue>)

  /** The empty dataset of the default constructor. */
  const Empty: Dataset := Dataset([])

  /** addRow: one more row at the end, the others kept in order. */
  function AddRow(ds: Dataset, d: DatasetValue): (r: Dataset)
    ensures |r.rows| == |ds.rows| + 1
    ensures r.rows[..|ds.rows|] == ds.rows && r.rows[|ds.rows|] == d
  {
    Dataset(ds.rows + [d])
  }

  /** clearRows: no rows left. */
  function ClearRows(ds: Dataset): (r: Dataset)
    ensures |r.rows| == 0
  {
    Dataset([])
  }

  /** getRows: the rows that make up the dataset. */
  function GetRows(ds: Dataset): (rows: seq<DatasetValue>)
    ensures ds == Dataset(rows)
  {
    ds.rows
  }

  /** setRows: exactly the given rows. */
  function SetRows(ds: Dataset, rows: seq<DatasetValue>): (r: Dataset)
    ensures GetRows(r) == rows
  {
    Dataset(rows)
  }

  /** Adding rows one by one to a cleared dataset gives exactly those rows. */
  function AddRows(ds: Dataset, rows: seq<DatasetValue>): Dataset {
    if |rows| == 0 then ds else AddRow(AddRows(ds, rows[..|rows| - 1]), rows[|rows| - 1])
  }

  lemma {:induction false} AddRowsAppends(ds: Dataset, rows: seq<DatasetValue>)
    ensures GetRows(AddRows(ds, rows)) == GetRows(ds) + rows
  {
    if |rows| > 0 {
      AddRowsAppends(ds, rows[..|rows| - 1]);
      assert rows == rows[..|rows| - 1] + [rows[|rows| - 1]];
    }
  }

  lemma AddRowsSetRows(ds: Dataset, rows: seq<DatasetValue>)
    ensures AddRows(ClearRows(ds), rows) == SetRows(ds, rows)
  {
    AddRowsAppends(ClearRows(ds), rows);
  }

  // ---------------------------------------------------------------------------
  // Fields of a CSV line
  // ---------------------------------------------------------------------------

  /** The index of the first ',' in s, or |s| when there is none. */
  function FieldEnd(s: string): (e: nat)
    ensures e <= |s|
    ensures forall i :: 0 <= i < e ==> s[i] != ','
    ensures e < |s| ==> s[e] == ','
  {
    if |s| == 0 || s[0] == ',' then 0 else 1 + FieldEnd(s[1..])
  }

  /** `std::getline(iss, field, ',')`: the text up to the next ',' (which is
   *  consumed) or to the end; failure only when nothing is left to read,
   *  so an empty field before a ',' succeeds but an empty one at the end
   *  does not. On success, also what is left. */
  function GetField(s: string): (r: Option<(string, string)>)
    ensures r.None? <==> |s| == 0
    ensures r.Some? ==> forall i :: 0 <= i < |r.value.0| ==> r.value.0[i] != ','
    ensures r.Some? ==> |r.value.1| < |s|
  {
    if |s| == 0 then None
    else
      var e := FieldEnd(s);
      if e == |s| then Some((s, "")) else Some((s[..e], s[e + 1..]))
  }

  /** A successful read splits s into the field, the ',' that ended it
   *  (absent at the end of the text) and what is left. */
  lemma GetFieldSplits(s: string)
    requires |s| > 0
    ensures var (f, rest) := GetField(s).value;
      s == f + (if |f| == |s| then "" else ",") + rest
  {
    var e := FieldEnd(s);
    if e == |s| {
      assert s == s + "" + "";
    } else {
      assert s == s[..e] + "," + s[e + 1..];
    }
  }

  /** n successive `std::getline(iss, field, ',')` calls, all of which must
   *  succeed. */
  function SplitFields(s: string, n: nat): (r: Option<seq<string>>)
    ensures r.Some? ==> |r.value| == n
    decreases n
  {
    if n == 0 then Some([])
    else
      match GetField(s)
      case None => None
      case Some((f, rest)) =>
        match SplitFields(rest, n - 1)
        case None => None
        case Some(fs) => Some([f] + fs)
  }

  /** One field read, then the remaining m = n - 1. */
  lemma SplitFieldsCons(s: string, n: nat, f: string, rest: string, m: nat, fs: seq<string>)
    requires n == m + 1 && GetField(s) == Some((f, rest))
    requires SplitFields(rest, m) == Some(fs)
    ensures SplitFields(s, n) == Some([f] + fs)
  {
  }

  /** A failure among the remaining m fields fails the whole split. */
  lemma SplitFieldsFails(s: string, n: nat, f: string, rest: string, m: nat)
    requires n == m + 1 && GetField(s) == Some((f, rest))
    requires SplitFields(rest, m).None?
    ensures SplitFields(s, n).None?
  {
  }

  /** The fields joined with ','. */
  function JoinFields(fields: seq<string>): string
    requires |fields| > 0
  {
    if |fields| == 1 then fields[0] else fields[0] + "," + JoinFields(fields[1..])
  }

  predicate CommaFree(f: string) {
    forall i :: 0 <= i < |f| ==> f[i] != ','
  }

  lemma GetFieldOf(f: string, tail: string)
    requires CommaFree(f)
    requires |tail| == 0 || tail[0] == ','
    requires |f| > 0 || |tail| > 0
    ensures GetField(f + tail) == Some((f, if |tail| == 0 then "" else tail[1..]))
  {
    var s := f + tail;
    var e := FieldEnd(s);
    assert forall i :: 0 <= i < |f| ==> s[i] == f[i];
    assert |tail| > 0 ==> s[|f|] == tail[0];
    assert e == |f|;
    if |tail| == 0 {
      assert s == f;
    } else {
      assert s[..e] == f;
      assert s[e + 1..] == tail[1..];
    }
  }

  /** Splitting comma-free fields joined with ',' gives them back, whatever
   *  further columns follow; the last field may be empty only when something
   *  follows it. */
  lemma {:induction false} SplitJoinFields(fields: seq<string>, tail: string)
    requires |fields| > 0
    requires forall i :: 0 <= i < |fields| ==> CommaFree(fields[i])
    requires |tail| == 0 || tail[0] == ','
    requires |fields[|fields| - 1]| > 0 || |tail| > 0
    ensures SplitFields(JoinFields(fields) + tail, |fields|) == Some(fields)
    decreases |fields|
  {
    assert CommaFree(fields[0]);
    if |fields| == 1 {
      SplitJoinOne(fields[0], tail);
      assert JoinFields(fields) == fields[0] && [fields[0]] == fields;
    } else {
      var rest := fields[1..];
      assert forall i :: 0 <= i < |rest| ==> CommaFree(rest[i]) by {
        assert forall i :: 0 <= i < |rest| ==> rest[i] == fields[i + 1];
      }
      assert rest[|rest| - 1] == fields[|fields| - 1];
      SplitJoinFields(rest, tail);
      SplitJoinStep(fields, tail);
    }
  }

  lemma SplitJoinOne(f: string, tail: string)
    requires CommaFree(f)
    requires |tail| == 0 || tail[0] == ','
    requires |f| > 0 || |tail| > 0
    ensures SplitFields(f + tail, 1) == Some([f])
  {
    var left := if |tail| == 0 then "" else tail[1..];
    GetFieldOf(f, tail);
    assert SplitFields(left, 0) == Some([]);
    SplitFieldsCons(f + tail, 1, f, left, 0, []);
    assert [f] + [] == [f];
  }

  lemma SplitJoinStep(fields: seq<string>, tail: string)
    requires |fields| > 1 && CommaFree(fields[0])
    requires SplitFields(JoinFields(fields[1..]) + tail, |fields[1..]|) == Some(fields[1..])
    ensures SplitFields(JoinFields(fields) + tail, |fields|) == Some(fields)
  {
    JoinFieldsHead(fields, tail);
    SplitFieldsCons(JoinFields(fields) + tail, |fields|, fields[0], JoinFields(fields[1..]) + tail, |fields[1..]|, fields[1..]);
    assert [fields[0]] + fields[1..] == fields;
  }

  /** Reading the first field of several joined comma-free fields leaves
   *  the join of the others. */
  lemma JoinFieldsHead(fields: seq<string>, tail: string)
    requires |fields| > 1 && CommaFree(fields[0])
    ensures GetField(JoinFields(fields) + tail) == Some((fields[0], JoinFields(fields[1..]) + tail))
  {
    var f := fields[0];
    var after := JoinFields(fields[1..]) + tail;
    assert JoinFields(fields) + tail == f + ("," + after);
    GetFieldOf(f, "," + after);
    assert ("," + after)[1..] == after;
  }

  /** A line of comma-free fields ending in ',' yields one field fewer
   *  than the commas suggest: the empty field after the last ',' is not
   *  read. */
  lemma {:induction false} TrailingEmptyFieldFails(fields: seq<string>)
    requires |fields| > 0
    requires forall i :: 0 <= i < |fields| ==> CommaFree(fields[i])
    ensures SplitFields(JoinFields(fields) + ",", |fields| + 1).None?
    decreases |fields|
  {
    assert CommaFree(fields[0]);
    if |fields| == 1 {
      TrailingEmptyOne(fields[0]);
      assert JoinFields(fields) == fields[0];
    } else {
      var rest := fields[1..];
      assert forall i :: 0 <= i < |rest| ==> CommaFree(rest[i]) by {
        assert forall i :: 0 <= i < |rest| ==> rest[i] == fields[i + 1];
      }
      TrailingEmptyFieldFails(rest);
      TrailingEmptyStep(fields);
    }
  }

  lemma TrailingEmptyOne(f: string)
    requires CommaFree(f)
    ensures SplitFields(f + ",", 2).None?
  {
    GetFieldOf(f, ",");
    assert ","[1..] == "";
    assert SplitFields("", 1).None?;
    SplitFieldsFails(f + ",", 2, f, "", 1);
  }

  lemma TrailingEmptyStep(fields: seq<string>)
    requires |fields| > 1 && CommaFree(fields[0])
    requires SplitFields(JoinFields(fields[1..]) + ",", |fields[1..]| + 1).None?
    ensures SplitFields(JoinFields(fields) + ",", |fields| + 1).None?
  {
    JoinFieldsHead(fields, ",");
    SplitFieldsFails(JoinFields(fields) + ",", |fields| + 1, fields[0], JoinFields(fields[1..]) + ",", |fields[1..]| + 1);
  }

  // ---------------------------------------------------------------------------
  // Loading
  // ---------------------------------------------------------------------------

  /** Fields per data line: row, day, dayOfWeek, date, pageLoads,
   *  uniqueVisitors, firstTimeVisitors, returningVisitors. */
  const FIELD_COUNT: nat := 8

  /** Column of dayOfWeek. */
  const DAY_OF_WEEK_COLUMN: nat := 2

  /** The exception that escapes fromCSV: std::stoi on the dayOfWeek column
   *  of a line that yields all eight fields, here with that column's text. */
  datatype LoadError = BadDayOfWeek(text: string)

  /** What one data line contributes: no row when it does not yield eight
   *  fields, the row built from them when it does, or the exception when
   *  its dayOfWeek is not an int. The row number in the first column is
   *  not kept. */
  function ParseLine(line: string, mktime: Tm -> Int64): (r: Result<Option<DatasetValue>, LoadError>)
    ensures SplitFields(line, FIELD_COUNT).None? ==> r == Success(None)
    ensures SplitFields(line, FIELD_COUNT).Some? ==>
      var fs := SplitFields(line, FIELD_COUNT).value;
      && (r.Failure? <==> Stoi(fs[DAY_OF_WEEK_COLUMN]).None?)
      && (r.Failure? ==> r.error == BadDayOfWeek(fs[DAY_OF_WEEK_COLUMN]))
      && (r.Success? ==> r.value.Some? && r.value.value.day == fs[1]
                         && r.value.value.dayOfWeek == Stoi(fs[DAY_OF_WEEK_COLUMN]).value)
    ensures SplitFields(line, FIELD_COUNT).Some? && r.Success? ==>
      var fs := SplitFields(line, FIELD_COUNT).value;
      var v := r.value.value;
      && v.date == ParseDateString(fs[3], mktime)
      && v.pageLoads == ParseNumberString(fs[4]) && v.uniqueVisitors == ParseNumberString(fs[5])
      && v.firstTimeVisitors == ParseNumberString(fs[6]) && v.returningVisitors == ParseNumberString(fs[7])
  {
    match SplitFields(line, FIELD_COUNT)
    case None => Success(None)
    case Some(fs) =>
      match Stoi(fs[2])
      case None => Failure(BadDayOfWeek(fs[2]))
      case Some(dayOfWeek) =>
        Success(Some(FromStrings(fs[1], dayOfWeek, fs[3], fs[4], fs[5], fs[6], fs[7], mktime)))
  }

  /** ParseLine for a fixed mktime, as a value. */
  function LineParser(mktime: Tm -> Int64): string -> Result<Option<DatasetValue>, LoadError> {
    line => ParseLine(line, mktime)
  }

  /** The rows of a run of lines, in order, each line parsed by parse; the
   *  first failure, in line order, stops the run. */
  function Collect<T, E>(body: seq<string>, parse: string -> Result<Option<T>, E>): (r: Result<seq<T>, E>)
    ensures r.Success? ==> |r.value| <= |body|
  {
    if |body| == 0 then Success([])
    else
      match Collect(body[..|body| - 1], parse)
      case Failure(e) => Failure(e)
      case Success(rows) =>
        match parse(body[|body| - 1])
        case Failure(e) => Failure(e)
        case Success(None) => Success(rows)
        case Success(Some(v)) => Success(rows + [v])
  }

  /** Collecting two runs of lines: the first failure of either, in order,
   *  or the rows of both, in order. */
  lemma {:induction false} CollectAppend<T, E>(a: seq<string>, b: seq<string>, parse: string -> Result<Option<T>, E>)
    ensures Collect(a + b, parse) ==
      if Collect(a, parse).Failure? then Collect(a, parse)
      else if Collect(b, parse).Failure? then Failure(Collect(b, parse).error)
      else Success(Collect(a, parse).value + Collect(b, parse).value)
    decreases |b|
  {
    var ab := a + b;
    if |b| == 0 {
      assert ab == a;
      if Collect(a, parse).Success? {
        assert Collect(a, parse).value + [] == Collect(a, parse).value;
      }
    } else {
      var b' := b[..|b| - 1];
      var last := b[|b| - 1];
      assert ab[..|ab| - 1] == a + b';
      assert ab[|ab| - 1] == last;
      CollectAppend(a, b', parse);
      var ca, cb' := Collect(a, parse), Collect(b', parse);
      if ca.Success? && cb'.Success? && parse(last).Success? && parse(last).value.Some? {
        var v := parse(last).value.value;
        assert Collect(b, parse) == Success(cb'.value + [v]);
        assert Collect(ab, parse) == Success(ca.value + cb'.value + [v]);
        assert ca.value + cb'.value + [v] == ca.value + (cb'.value + [v]);
      }
    }
  }

  /** One line on its own. */
  lemma CollectOne<T, E>(line: string, parse: string -> Result<Option<T>, E>)
    ensures Collect([line], parse) ==
      match parse(line)
      case Failure(e) => Failure(e)
      case Success(None) => Success([])
      case Success(Some(v)) => Success([v])
  {
    assert [line][..0] == [];
    assert Collect([line][..0], parse) == Success([]);
    match parse(line)
    case Failure(e) =>
    case Success(None) =>
    case Success(Some(v)) =>
      assert [] + [v] == [v];
  }

  /** fromCSV: the rows become those of the data lines after the header,
   *  whatever rows there were before, or the exception of the first line
   *  whose dayOfWeek is not an int. */
  function FromCsv(ds: Dataset, lines: seq<string>, mktime: Tm -> Int64): (r: Result<Dataset, LoadError>)
    ensures |lines| <= 1 ==> r == Success(Empty)
    ensures |lines| > 1 && r.Success? ==> |r.value.rows| <= |lines| - 1
  {
    if |lines| == 0 then Success(Dataset([]))
    else
      match Collect(lines[1..], LineParser(mktime))
      case Failure(e) => Failure(e)
      case Success(rows) => Success(Dataset(rows))
  }

  /** fromCSV as the source writes it: clear, skip the header, add a row per
   *  line that yields eight fields, stop at the exception. */
  method LoadCsv(ds: Dataset, lines: seq<string>, mktime: Tm -> Int64) returns (r: Result<Dataset, LoadError>)
    ensures r == FromCsv(ds, lines, mktime)
  {
    var d := ClearRows(ds);
    if |lines| == 0 {
      return Success(d);
    }
    var rows := CollectLoop(lines[1..], LineParser(mktime));
    r := match rows
      case Failure(e) => Failure(e)
      case Success(rs) => Success(Dataset(rs));
  }

  /** The read loop of fromCSV: each line in turn, push_back of its row if
   *  it has one, leave at the first exception. */
  method CollectLoop<T, E>(body: seq<string>, parse: string -> Result<Option<T>, E>) returns (r: Result<seq<T>, E>)
    ensures r == Collect(body, parse)
  {
    var rows: seq<T> := [];
    var i := 0;
    while i < |body|
      invariant 0 <= i <= |body|
      invariant Collect(body[..i], parse) == Success(rows)
    {
      var p := parse(body[i]);
      if p.Failure? {
        CollectStops(body, i, parse);
        return Failure(p.error);
      }
      CollectNext(body, i, parse);
      if p.value.Some? {
        rows := rows + [p.value.value];
      } else {
        assert rows + [] == rows;
      }
      i := i + 1;
    }
    assert body[..|body|] == body;
    r := Success(rows);
  }

  /** One more line after a clean prefix. */
  lemma CollectNext<T, E>(body: seq<string>, i: nat, parse: string -> Result<Option<T>, E>)
    requires i < |body| && Collect(body[..i], parse).Success? && parse(body[i]).Success?
    ensures Collect(body[..i + 1], parse) == Success(Collect(body[..i], parse).value +
      (if parse(body[i]).value.Some? then [parse(body[i]).value.value] else []))
  {
    var head := body[..i + 1];
    assert head[..|head| - 1] == body[..i] && head[|head| - 1] == body[i];
    assert Collect(body[..i], parse).value + [] == Collect(body[..i], parse).value;
  }

  /** A failure at line i, after a clean prefix, is the failure of the run. */
  lemma CollectStops<T, E>(body: seq<string>, i: nat, parse: string -> Result<Option<T>, E>)
    requires i < |body| && Collect(body[..i], parse).Success? && parse(body[i]).Failure?
    ensures Collect(body, parse) == Failure(parse(body[i]).error)
  {
    CollectFailsAt(body, i, parse);
    CollectKeepsFailure(body, i + 1, parse);
  }

  /** The run up to and including the failing line fails with its error. */
  lemma CollectFailsAt<T, E>(body: seq<string>, i: nat, parse: string -> Result<Option<T>, E>)
    requires i < |body| && Collect(body[..i], parse).Success? && parse(body[i]).Failure?
    ensures Collect(body[..i + 1], parse) == Failure(parse(body[i]).error)
  {
    var head := body[..i + 1];
    assert head[..|head| - 1] == body[..i] && head[|head| - 1] == body[i];
  }

  /** Lines after a failure do not matter: a run whose first k lines fail
   *  fails the same way. */
  lemma {:induction false} CollectKeepsFailure<T, E>(body: seq<string>, k: nat, parse: string -> Result<Option<T>, E>)
    requires k <= |body| && Collect(body[..k], parse).Failure?
    ensures Collect(body, parse) == Collect(body[..k], parse)
    decreases |body| - k
  {
    if k == |body| {
      assert body[..k] == body;
    } else {
      var front := body[..|body| - 1];
      assert front[..k] == body[..k];
      CollectKeepsFailure(front, k, parse);
    }
  }

  /** A file holding one data line of eight comma-free fields, the last not
   *  empty and the dayOfWeek an int, loads as exactly the row those fields
   *  describe; the header can be anything. */
  lemma FromCsvOneLine(ds: Dataset, header: string, fields: seq<string>, mktime: Tm -> Int64)
    requires |fields| == FIELD_COUNT
    requires forall i :: 0 <= i < |fields| ==> CommaFree(fields[i])
    requires |fields[7]| > 0 && Stoi(fields[2]).Some?
    ensures FromCsv(ds, [header, JoinFields(fields)], mktime) == Success(Dataset(
      [FromStrings(fields[1], Stoi(fields[2]).value, fields[3], fields[4], fields[5], fields[6], fields[7], mktime)]))
  {
    var line := JoinFields(fields);
    SplitJoinFields(fields, "");
    assert line + "" == line;
    assert [header, line][1..] == [line];
    CollectOne(line, LineParser(mktime));
  }

  /** A data line with eight fields whose dayOfWeek is not an int makes the
   *  load throw, reporting that column. */
  lemma FromCsvBadDayOfWeek(ds: Dataset, header: string, fields: seq<string>, mktime: Tm -> Int64)
    requires |fields| == FIELD_COUNT
    requires forall i :: 0 <= i < |fields| ==> CommaFree(fields[i])
    requires |fields[7]| > 0 && Stoi(fields[2]).None?
    ensures FromCsv(ds, [header, JoinFields(fields)], mktime) == Failure(BadDayOfWeek(fields[2]))
  {
    var line := JoinFields(fields);
    SplitJoinFields(fields, "");
    assert line + "" == line;
    assert [header, line][1..] == [line];
    CollectOne(line, LineParser(mktime));
  }

  /** The rows loaded depend only on the data lines: neither the rows held
   *  before nor the header matter. */
  lemma FromCsvIgnoresHeader(a: Dataset, b: Dataset, h1: string, h2: string, body: seq<string>, mktime: Tm -> Int64)
    ensures FromCsv(a, [h1] + body, mktime) == FromCsv(b, [h2] + body, mktime)
  {
    assert ([h1] + body)[1..] == body == ([h2] + body)[1..];
  }

  /** Appending data lines to a file that loads cleanly appends their rows. */
  lemma FromCsvAppend(ds: Dataset, lines: seq<string>, more: seq<string>, mktime: Tm -> Int64)
    requires |lines| > 0
    requires FromCsv(ds, lines, mktime).Success?
    ensures FromCsv(ds, lines + more, mktime) ==
      match Collect(more, LineParser(mktime))
      case Failure(e) => Failure(e)
      case Success(rows) => Success(Dataset(FromCsv(ds, lines, mktime).value.rows + rows))
  {
    assert (lines + more)[1..] == lines[1..] + more;
    CollectAppend(lines[1..], more, LineParser(mktime));
  }
}
