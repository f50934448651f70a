/** The trainer's report export: one CSV line per session with the
    session's mean score per metric, written without quoting. */
module ReportsExport {
  import opened JsText

  /** A value of a report record: a string or a number. */
  datatype Value = Text(text: string) | Number(n: int)

  /** A plain object, as its entries in key order. */
  type Record = seq<(string, Value)>

  function Keys(r: Record): (keys: seq<string>)
    ensures |keys| == |r|
  {
    seq(|r|, k requires 0 <= k < |r| => r[k].0)
  }

  /** `row[h]`: the entry under key `h`, if there is one. */
  function Lookup(r: Record, h: string): Option<Value>
  {
    if |r| == 0 then None
    else if r[0].0 == h then Some(r[0].1)
    else Lookup(r[1..], h)
  }

  /** A text found in a record whose texts are free of a character is free
      of it too. */
  lemma {:induction false} LookupFree(r: Record, h: string, c: char)
    ensures RecordFree(r, c) && Lookup(r, h).Some? && Lookup(r, h).value.Text? ==> Free(Lookup(r, h).value.text, c)
  {
    if RecordFree(r, c) && |r| > 0 && r[0].0 != h {
      assert RecordFree(r[1..], c) by {
        assert forall k :: 0 <= k < |r[1..]| ==> r[1..][k] == r[k + 1];
      }
      LookupFree(r[1..], h, c);
    }
  }

  /** `String(row[h] ?? "")`: a missing value gives "", and the cell holds
      no comma or line feed unless the record's keys or texts do. */
  function Cell(r: Record, h: string): (cell: string)
    ensures Lookup(r, h).None? ==> cell == ""
    ensures RecordFree(r, ',') ==> Free(cell, ',')
    ensures RecordFree(r, '\n') ==> Free(cell, '\n')
  {
    LookupFree(r, h, ',');
    LookupFree(r, h, '\n');
    match Lookup(r, h)
    case None => ""
    case Some(Text(s)) => s
    case Some(Number(n)) =>
      IntStringHasNoSeparator(n, ',');
      IntStringHasNoSeparator(n, '\n');
      IntToString(n)
  }

  function Cells(r: Record, headers: seq<string>): (cells: seq<string>)
    ensures |cells| == |headers|
  {
    seq(|headers|, j requires 0 <= j < |headers| => Cell(r, headers[j]))
  }

  /** The headers: the keys of the first row, none for no rows. */
  function Headers(rows: seq<Record>): seq<string>
  {
    if |rows| == 0 then [] else Keys(rows[0])
  }

  /** The lines of the file: the header line, then one line per row with
      its values in header order. */
  function CsvLines(rows: seq<Record>): (lines: seq<string>)
    ensures |lines| == |rows| + 1
  {
    var headers := Headers(rows);
    [Join(headers, ",")] + seq(|rows|, k requires 0 <= k < |rows| => Join(Cells(rows[k], headers), ","))
  }

  /** `toCsv`. */
  method ToCsv(rows: seq<Record>) returns (csv: string)
    ensures csv == Join(CsvLines(rows), "\n")
    ensures rows == [] ==> csv == ""
  {
    var headers := if |rows| == 0 then [] else Keys(rows[0]);
    var lines := [Join(headers, ",")];
    for i := 0 to |rows|
      invariant lines == CsvLines(rows)[..i + 1]
    {
      lines := lines + [Join(Cells(rows[i], headers), ",")];
    }
    assert lines == CsvLines(rows);
    csv := Join(lines, "\n");
  }

  /** The characters `String` gives a number never include a separator. */
  lemma IntStringHasNoSeparator(n: int, c: char)
    requires c == ',' || c == '\n'
    ensures forall i :: 0 <= i < |IntToString(n)| ==> IntToString(n)[i] != c
  {
    if n < 0 {
      assert forall i :: 1 <= i < |IntToString(n)| ==> IntToString(n)[i] == NatToString(-n)[i - 1];
    }
  }

  predicate Free(s: string, c: char)
  {
    forall i :: 0 <= i < |s| ==> s[i] != c
  }

  /** No key and no text value holds the character. */
  predicate RecordFree(r: Record, c: char)
  {
    forall k :: 0 <= k < |r| ==> Free(r[k].0, c) && (r[k].1.Text? ==> Free(r[k].1.text, c))
  }

  lemma {:induction false} JoinFree(parts: seq<string>, sep: string, c: char)
    requires Free(sep, c) && forall k :: 0 <= k < |parts| ==> Free(parts[k], c)
    ensures Free(Join(parts, sep), c)
  {
    if |parts| > 1 {
      JoinFree(parts[1..], sep, c);
    }
  }

  /** A row's line splits back into its cells when no key or text holds a
      comma: the columns line up with the headers. */
  lemma RowSplitsIntoCells(rows: seq<Record>, k: int)
    requires 0 <= k < |rows| && |Headers(rows)| > 0
    requires forall j :: 0 <= j < |rows| ==> RecordFree(rows[j], ',')
    ensures Split(CsvLines(rows)[k + 1], ',') == Cells(rows[k], Headers(rows))
    ensures |Split(CsvLines(rows)[k + 1], ',')| == |Headers(rows)|
  {
    var cells := Cells(rows[k], Headers(rows));
    assert forall j :: 0 <= j < |cells| ==> Free(cells[j], ',');
    SplitJoin(cells, ',');
  }

  /** When no key or text holds a line feed, the file has exactly one line
      more than there are rows. */
  lemma CsvLineCount(rows: seq<Record>)
    requires forall j :: 0 <= j < |rows| ==> RecordFree(rows[j], '\n')
    ensures Split(Join(CsvLines(rows), "\n"), '\n') == CsvLines(rows)
    ensures |Split(Join(CsvLines(rows), "\n"), '\n')| == |rows| + 1
  {
    var lines := CsvLines(rows);
    var headers := Headers(rows);
    if |rows| > 0 {
      assert forall j :: 0 <= j < |headers| ==> Free(headers[j], '\n');
    }
    JoinFree(headers, ",", '\n');
    forall k | 1 <= k < |lines|
      ensures Free(lines[k], '\n')
    {
      var cells := Cells(rows[k - 1], headers);
      assert forall j :: 0 <= j < |cells| ==> Free(cells[j], '\n');
      JoinFree(cells, ",", '\n');
    }
    SplitJoin(lines, '\n');
  }

  // ----- Per-session averages -----

  /** An evaluation's stored scores: each may be fractional (the trainer
      writes its soft-skill and de-escalation scores unrounded) and each may
      be missing from the stored JSON. */
  datatype Scores = Scores(correctness: Option<real>, compliance: Option<real>,
                           softSkills: Option<real>, deEscalation: Option<real>)

  datatype Metric = Correctness | Compliance | SoftSkills | DeEscalation

  /** `s[key] ?? 0`. */
  function Get(s: Scores, m: Metric): real
  {
    var v := match m
      case Correctness => s.correctness
      case Compliance => s.compliance
      case SoftSkills => s.softSkills
      case DeEscalation => s.deEscalation;
    if v.Some? then v.value else 0.0
  }

  /** `json.scores ?? {all zero}`: an evaluation without scores counts as
      zeros. */
  function ScoresOf(e: Option<Scores>): (r: Scores)
    ensures e.None? ==> forall m :: Get(r, m) == 0.0
    ensures e.Some? ==> forall m :: Get(r, m) == Get(e.value, m)
  {
    match e
    case None => Scores(Some(0.0), Some(0.0), Some(0.0), Some(0.0))
    case Some(s) => s
  }

  function Values(evaluations: seq<Option<Scores>>, m: Metric): (vs: seq<real>)
    ensures |vs| == |evaluations|
  {
    seq(|evaluations|, k requires 0 <= k < |evaluations| => Get(ScoresOf(evaluations[k]), m))
  }

  /** The `reduce` of `avg`: the sum, from the left. */
  function SumReal(xs: seq<real>): real
  {
    if |xs| == 0 then 0.0 else SumReal(xs[..|xs| - 1]) + xs[|xs| - 1]
  }

  /** `avg(key)`: the rounded mean over the session's evaluations, and 0
      without any; scores in [0,100] average into [0,100]. */
  function Avg(evaluations: seq<Option<Scores>>, m: Metric): (r: int)
    ensures |evaluations| == 0 ==> r == 0
    ensures (forall k :: 0 <= k < |evaluations| ==> 0.0 <= Get(ScoresOf(evaluations[k]), m) <= 100.0) ==> 0 <= r <= 100
  {
    if |evaluations| == 0 then 0
    else
      var vs := Values(evaluations, m);
      RoundedMeanBounds(vs, 0, 100);
      JsRound(SumReal(vs) / |evaluations| as real)
  }

  lemma {:induction false} SumBounds(xs: seq<real>, lo: real, hi: real)
    requires forall k :: 0 <= k < |xs| ==> lo <= xs[k] <= hi
    ensures lo * |xs| as real <= SumReal(xs) <= hi * |xs| as real
  {
    if |xs| > 0 {
      SumBounds(xs[..|xs| - 1], lo, hi);
    }
  }

  lemma MeanBounds(sum: real, n: int, lo: real, hi: real)
    requires n > 0 && lo * n as real <= sum <= hi * n as real
    ensures lo <= sum / n as real <= hi
  {
    assert sum / n as real - lo == (sum - lo * n as real) / n as real;
    assert hi - sum / n as real == (hi * n as real - sum) / n as real;
  }

  /** The rounded mean of values within integer bounds stays within them. */
  lemma RoundedMeanBounds(vs: seq<real>, lo: int, hi: int)
    requires |vs| > 0
    ensures (forall k :: 0 <= k < |vs| ==> lo as real <= vs[k] <= hi as real)
      ==> lo <= JsRound(SumReal(vs) / |vs| as real) <= hi
  {
    if forall k :: 0 <= k < |vs| ==> lo as real <= vs[k] <= hi as real {
      var n := |vs|;
      SumBounds(vs, lo as real, hi as real);
      MeanBounds(SumReal(vs), n, lo as real, hi as real);
      var mean := SumReal(vs) / n as real;
      JsRoundMonotone(lo as real, mean);
      JsRoundMonotone(mean, hi as real);
      JsRoundInt(lo);
      JsRoundInt(hi);
    }
  }

  /** The mean of scores within a range stays within it, so averages of
      scores in [0,100] are in [0,100]; with no evaluation it is 0. */
  lemma AvgBounds(evaluations: seq<Option<Scores>>, m: Metric, lo: int, hi: int)
    requires lo <= 0 <= hi
    requires forall k :: 0 <= k < |evaluations| ==> lo as real <= Get(ScoresOf(evaluations[k]), m) <= hi as real
    ensures lo <= Avg(evaluations, m) <= hi
  {
    if |evaluations| > 0 {
      RoundedMeanBounds(Values(evaluations, m), lo, hi);
    }
  }

  /** Evaluations that agree on a metric average to that value, rounded
      half up. */
  lemma AvgOfEqual(evaluations: seq<Option<Scores>>, m: Metric, v: real)
    requires forall k :: 0 <= k < |evaluations| ==> Get(ScoresOf(evaluations[k]), m) == v
    ensures Avg(evaluations, m) == if evaluations == [] then 0 else JsRound(v)
  {
    var n := |evaluations|;
    if n > 0 {
      var vs := Values(evaluations, m);
      SumBounds(vs, v, v);
      assert SumReal(vs) == v * n as real;
      assert SumReal(vs) / n as real == v;
    }
  }

  /** One exported session: its id, mode, intent title and creation time
      (an ISO text), and its evaluations. */
  datatype Session = Session(id: string, mode: string, intentTitle: string, createdAt: string, evaluations: seq<Option<Scores>>)

  const ReportHeaders: seq<string> := ["sessionId", "mode", "intent", "createdAt", "correctness", "compliance", "softSkills", "deEscalation"]

  /** The values of a session's report row, in column order. */
  function ReportValues(s: Session): (vs: seq<Value>)
    ensures |vs| == |ReportHeaders|
  {
    [Text(s.id), Text(s.mode), Text(s.intentTitle), Text(s.createdAt),
     Number(Avg(s.evaluations, Correctness)), Number(Avg(s.evaluations, Compliance)),
     Number(Avg(s.evaluations, SoftSkills)), Number(Avg(s.evaluations, DeEscalation))]
  }

  /** The entries of an object literal: each key with its value. */
  function Zip(keys: seq<string>, vs: seq<Value>): (r: Record)
    requires |keys| == |vs|
    ensures Keys(r) == keys
  {
    var r := seq(|keys|, k requires 0 <= k < |keys| => (keys[k], vs[k]));
    assert Keys(r) == keys;
    r
  }

  /** The report row of one session, with the keys in the route's order. */
  function ReportRow(s: Session): Record
  {
    Zip(ReportHeaders, ReportValues(s))
  }

  /** `String(v)`. */
  function Show(v: Value): string
  {
    match v
    case Text(t) => t
    case Number(n) => IntToString(n)
  }

  predicate Distinct(keys: seq<string>)
  {
    forall a, b :: 0 <= a < b < |keys| ==> keys[a] != keys[b]
  }

  /** In an object whose keys are distinct, each key finds its own value. */
  lemma {:induction false} LookupZip(keys: seq<string>, vs: seq<Value>, j: int)
    requires |keys| == |vs| && Distinct(keys) && 0 <= j < |keys|
    ensures Lookup(Zip(keys, vs), keys[j]) == Some(vs[j])
  {
    var r := Zip(keys, vs);
    if j > 0 {
      assert keys[0] != keys[j];
      assert Distinct(keys[1..]) by {
        assert forall a :: 0 <= a < |keys[1..]| ==> keys[1..][a] == keys[a + 1];
      }
      LookupZip(keys[1..], vs[1..], j - 1);
      assert r[1..] == Zip(keys[1..], vs[1..]);
    }
  }

  /** A row's cells under its own keys are its values, shown as text. */
  lemma CellsOfZip(keys: seq<string>, vs: seq<Value>)
    requires |keys| == |vs| && Distinct(keys)
    ensures Cells(Zip(keys, vs), keys) == seq(|vs|, j requires 0 <= j < |vs| => Show(vs[j]))
  {
    forall j | 0 <= j < |keys|
      ensures Cell(Zip(keys, vs), keys[j]) == Show(vs[j])
    {
      LookupZip(keys, vs, j);
    }
  }

  lemma ReportHeadersDistinct()
    ensures Distinct(ReportHeaders)
  {
    var h := ReportHeaders;
    assert |h[0]| == 9 && |h[1]| == 4 && |h[2]| == 6 && |h[3]| == 9;
    assert |h[4]| == 11 && |h[5]| == 10 && |h[6]| == 10 && |h[7]| == 12;
    assert h[0][0] == 's' && h[3][0] == 'c' && h[5][0] == 'c' && h[6][0] == 's';
  }

  /** The export's header line is the eight column names whenever there is
      a session, and each session's line holds its id, mode, intent title,
      creation time and four averages, in that order. */
  lemma ReportLines(sessions: seq<Session>)
    requires |sessions| > 0
    ensures var rows := seq(|sessions|, k requires 0 <= k < |sessions| => ReportRow(sessions[k]));
      && CsvLines(rows)[0] == Join(ReportHeaders, ",")
      && forall k :: 0 <= k < |sessions| ==> CsvLines(rows)[k + 1] == Join([
           sessions[k].id, sessions[k].mode, sessions[k].intentTitle, sessions[k].createdAt,
           IntToString(Avg(sessions[k].evaluations, Correctness)), IntToString(Avg(sessions[k].evaluations, Compliance)),
           IntToString(Avg(sessions[k].evaluations, SoftSkills)), IntToString(Avg(sessions[k].evaluations, DeEscalation))], ",")
  {
    var rows := seq(|sessions|, k requires 0 <= k < |sessions| => ReportRow(sessions[k]));
    assert Headers(rows) == ReportHeaders;
    ReportHeadersDistinct();
    forall k | 0 <= k < |sessions|
      ensures Cells(rows[k], ReportHeaders) == [
           sessions[k].id, sessions[k].mode, sessions[k].intentTitle, sessions[k].createdAt,
           IntToString(Avg(sessions[k].evaluations, Correctness)), IntToString(Avg(sessions[k].evaluations, Compliance)),
           IntToString(Avg(sessions[k].evaluations, SoftSkills)), IntToString(Avg(sessions[k].evaluations, DeEscalation))]
    {
      ReportCells(sessions[k]);
    }
  }

  /** The cells of a session's report row, in column order. */
  lemma ReportCells(s: Session)
    requires Distinct(ReportHeaders)
    ensures Cells(ReportRow(s), ReportHeaders) == [
      s.id, s.mode, s.intentTitle, s.createdAt,
      IntToString(Avg(s.evaluations, Correctness)), IntToString(Avg(s.evaluations, Compliance)),
      IntToString(Avg(s.evaluations, SoftSkills)), IntToString(Avg(s.evaluations, DeEscalation))]
  {
    var vs := ReportValues(s);
    CellsOfZip(ReportHeaders, vs);
    assert seq(|vs|, j requires 0 <= j < |vs| => Show(vs[j])) == [
      s.id, s.mode, s.intentTitle, s.createdAt,
      IntToString(Avg(s.evaluations, Correctness)), IntToString(Avg(s.evaluations, Compliance)),
      IntToString(Avg(s.evaluations, SoftSkills)), IntToString(Avg(s.evaluations, DeEscalation))];
  }
}
