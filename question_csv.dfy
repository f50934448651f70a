/** The trainer's question CSV (`parseCsv`, written three times over with
    the same body) and the loops that store its rows: a header line, then
    one `question,count,domain` line per question, split on every comma
    with no quoting. */
module QuestionCsv {
  import opened JsText

  /** The value of `Number(text)` for the texts modelled: an integer or
      NaN. */
  datatype Num = Int(value: int) | NaN

  /** A number's truthiness: neither 0 nor NaN. */
  predicate Truthy(n: Num)
  {
    n.Int? && n.value != 0
  }

  predicate AllDigits(s: string)
  {
    forall i :: 0 <= i < |s| ==> IsDigit(s[i])
  }

  /** The value of a run of decimal digits, leading zeros allowed. */
  function DigitsValue(s: string): nat
    requires AllDigits(s)
  {
    if |s| == 0 then 0 else DigitsValue(s[..|s| - 1]) * 10 + (s[|s| - 1] as int - '0' as int)
  }

  /** `Number(s)`: white space around the text is ignored, a blank text is
      0, an optionally signed run of decimal digits is its value, and
      anything else is NaN. */
  function ParseNumber(s: string): (r: Num)
    ensures r.Int? ==> Trim(s) == "" || IsDigit(Trim(s)[|Trim(s)| - 1])
    ensures r.Int? && r.value < 0 ==> Trim(s) != "" && Trim(s)[0] == '-'
    ensures AllDigits(Trim(s)) ==> r.Int? && r.value >= 0
  {
    var t := Trim(s);
    if t == "" then Int(0)
    else if AllDigits(t) then Int(DigitsValue(t))
    else if |t| > 1 && (t[0] == '+' || t[0] == '-') && AllDigits(t[1..]) then
      var v: int := DigitsValue(t[1..]);
      Int(if t[0] == '-' then -v else v)
    else NaN
  }

  /** `Number` ignores white space around the text: trimming first changes
      nothing. */
  lemma NumberIgnoresSpace(s: string)
    ensures ParseNumber(Trim(s)) == ParseNumber(s)
  {
    TrimEdges(s);
    TrimNoEdgeSpace(Trim(s));
  }

  lemma {:induction false} DigitsValueOfString(n: nat)
    ensures AllDigits(NatToString(n)) && DigitsValue(NatToString(n)) == n
    decreases n
  {
    var s := NatToString(n);
    if n >= 10 {
      DigitsValueOfString(n / 10);
      assert s[..|s| - 1] == NatToString(n / 10);
    }
  }

  /** `Number(String(n)) == n` for every integer. */
  lemma NumberOfIntString(n: int)
    ensures ParseNumber(IntToString(n)) == Int(n)
  {
    var s := IntToString(n);
    DigitsValueOfString(if n < 0 then -n else n);
    TrimNoEdgeSpace(s);
    if n < 0 {
      assert s[1..] == NatToString(-n);
      assert !IsDigit(s[0]);
    }
  }

  /** Trailing `\r` of a piece that ended at a line feed. */
  function DropCr(p: string): string
  {
    if |p| > 0 && p[|p| - 1] == '\r' then p[..|p| - 1] else p
  }

  /** `content.split(/\r?\n/)`: the pieces between line feeds, each piece
      followed by a line feed losing one `\r` before it. */
  function SplitLines(s: string): (lines: seq<string>)
    ensures |lines| >= 1
  {
    var pieces := Split(s, '\n');
    seq(|pieces|, k requires 0 <= k < |pieces| => if k < |pieces| - 1 then DropCr(pieces[k]) else pieces[k])
  }

  datatype CsvRow = CsvRow(question: string, count: Num, domain: Option<string>)

  /** One row from its fields `[question, count, domain]`: `split` always
      gives a first field, the others may be missing; a missing count reads
      as "1", a blank domain as none. */
  function RowOf(fields: seq<string>): (r: CsvRow)
    requires |fields| >= 1
    ensures |fields| == 1 ==> r.count == Int(1) && r.domain == None
    ensures r.question != [] ==> !IsSpace(r.question[0]) && !IsSpace(r.question[|r.question| - 1])
    ensures r.domain.Some? ==> var d := r.domain.value;
      d != [] && !IsSpace(d[0]) && !IsSpace(d[|d| - 1])
  {
    TrimEdges(fields[0]);
    NumberOfOne();
    CsvRow(
      Trim(fields[0]),
      ParseNumber(if |fields| > 1 then fields[1] else "1"),
      if |fields| > 2 then OptionalField(fields[2]) else None)
  }

  /** The default count text `"1"` reads as 1. */
  lemma NumberOfOne()
    ensures ParseNumber("1") == Int(1)
  {
    TrimNoEdgeSpace("1");
    assert "1"[..0] == "";
  }

  /** A trimmed field, or none when it is blank. */
  function OptionalField(f: string): (d: Option<string>)
    ensures d.Some? ==> d.value != [] && !IsSpace(d.value[0]) && !IsSpace(d.value[|d.value| - 1])
    ensures d.None? ==> forall i :: 0 <= i < |f| ==> IsSpace(f[i])
  {
    TrimSpec(f);
    if Trim(f) != "" then Some(Trim(f)) else None
  }

  /** `parseCsv`: the non-empty lines, less the first (the header), one row
      each. */
  function ParseCsv(content: string): (r: seq<CsvRow>)
    ensures var lines := NonEmpty(SplitLines(content));
      |r| == if |lines| == 0 then 0 else |lines| - 1
    ensures forall k :: 0 <= k < |r| ==> ',' !in r[k].question && r[k].domain != Some("")
  {
    RowsOfShape(NonEmpty(SplitLines(content)));
    RowsOf(NonEmpty(SplitLines(content)))
  }

  /** Every line but the first, split on commas, one row each. */
  function RowsOf(lines: seq<string>): seq<CsvRow>
  {
    if |lines| == 0 then []
    else seq(|lines| - 1, k requires 0 <= k < |lines| - 1 => RowOf(Split(lines[k + 1], ',')))
  }

  /** The header line is dropped, every other non-empty line gives one row,
      no question holds a comma, and no domain is blank. */
  lemma RowsOfShape(lines: seq<string>)
    ensures |RowsOf(lines)| == if |lines| == 0 then 0 else |lines| - 1
    ensures forall k :: 0 <= k < |RowsOf(lines)| ==> ',' !in RowsOf(lines)[k].question && RowsOf(lines)[k].domain != Some("")
  {
    var rows := RowsOf(lines);
    forall k | 0 <= k < |rows|
      ensures ',' !in rows[k].question && rows[k].domain != Some("")
    {
      var fields := Split(lines[k + 1], ',');
      RowOfShape(fields);
      assert rows[k] == RowOf(fields);
    }
  }

  lemma RowOfShape(fields: seq<string>)
    requires |fields| >= 1
    requires forall i :: 0 <= i < |fields[0]| ==> fields[0][i] != ','
    ensures ',' !in RowOf(fields).question && RowOf(fields).domain != Some("")
  {
    TrimPiece(fields[0]);
    var a := LeadingSpaces(fields[0]);
    var t := Trim(fields[0]);
    assert forall i :: 0 <= i < |t| ==> t[i] == fields[0][a + i];
  }

  // ----- Writing a file that parses back -----

  /** One question as a line of the file. */
  datatype QuestionLine = QuestionLine(question: string, count: int, domain: string)

  /** A field that survives the round trip: no comma, no line feed, and no
      white space at either end. */
  predicate PlainField(f: string)
  {
    && (forall i :: 0 <= i < |f| ==> f[i] != ',' && f[i] != '\n')
    && (f != [] ==> !IsSpace(f[0]) && !IsSpace(f[|f| - 1]))
  }

  function LineOf(q: QuestionLine): string
  {
    Join([q.question, IntToString(q.count), q.domain], ",")
  }

  function CsvText(header: string, qs: seq<QuestionLine>): string
  {
    Join([header] + seq(|qs|, k requires 0 <= k < |qs| => LineOf(qs[k])), "\n")
  }

  function Expected(q: QuestionLine): CsvRow
  {
    CsvRow(q.question, Int(q.count), if q.domain == "" then None else Some(q.domain))
  }

  lemma NonEmptyAll(parts: seq<string>)
    requires forall k :: 0 <= k < |parts| ==> parts[k] != []
    ensures NonEmpty(parts) == parts
  {
    if |parts| > 0 {
      NonEmptyAll(parts[1..]);
      assert [parts[0]] + parts[1..] == parts;
    }
  }

  lemma IntStringPlain(n: int)
    ensures forall i :: 0 <= i < |IntToString(n)| ==> IntToString(n)[i] != ',' && IntToString(n)[i] != '\n' && IntToString(n)[i] != '\r'
  {
    if n < 0 {
      assert forall i :: 1 <= i < |IntToString(n)| ==> IntToString(n)[i] == NatToString(-n)[i - 1];
    }
  }

  /** Every line of a question parses back to that question. */
  lemma LineRoundTrip(q: QuestionLine)
    requires PlainField(q.question) && PlainField(q.domain)
    ensures RowOf(Split(LineOf(q), ',')) == Expected(q)
  {
    var fields := [q.question, IntToString(q.count), q.domain];
    IntStringPlain(q.count);
    SplitJoin(fields, ',');
    TrimNoEdgeSpace(q.question);
    TrimNoEdgeSpace(q.domain);
    NumberOfIntString(q.count);
  }

  /** A line never ends with `\r`, since its last field does not end with
      white space and it always holds a comma. */
  lemma LineShape(q: QuestionLine)
    requires PlainField(q.question) && PlainField(q.domain)
    ensures var l := LineOf(q);
      l != [] && l[|l| - 1] != '\r' && forall i :: 0 <= i < |l| ==> l[i] != '\n'
  {
    IntStringPlain(q.count);
    JoinThree(q.question, IntToString(q.count), q.domain, ",");
  }

  lemma JoinThree(a: string, b: string, c: string, sep: string)
    ensures Join([a, b, c], sep) == a + sep + b + sep + c
  {
    assert [a, b, c][1..] == [b, c];
    assert [b, c][1..] == [c];
    assert Join([c], sep) == c;
    assert Join([b, c], sep) == b + sep + c;
  }

  /** Splitting at line feeds drops no `\r` when no piece ends with one. */
  lemma SplitLinesWithoutCr(s: string)
    requires forall k :: 0 <= k < |Split(s, '\n')| ==> var p := Split(s, '\n')[k]; p == [] || p[|p| - 1] != '\r'
    ensures SplitLines(s) == Split(s, '\n')
  {
  }

  function Lines(qs: seq<QuestionLine>): (r: seq<string>)
    ensures |r| == |qs|
  {
    seq(|qs|, k requires 0 <= k < |qs| => LineOf(qs[k]))
  }

  /** The file's non-empty lines are its header and its question lines. */
  lemma CsvLines(header: string, qs: seq<QuestionLine>)
    requires header != [] && header[|header| - 1] != '\r' && forall i :: 0 <= i < |header| ==> header[i] != '\n'
    requires forall k :: 0 <= k < |qs| ==> PlainField(qs[k].question) && PlainField(qs[k].domain)
    ensures NonEmpty(SplitLines(CsvText(header, qs))) == [header] + Lines(qs)
  {
    var parts := [header] + Lines(qs);
    forall k | 0 <= k < |qs|
      ensures var l := LineOf(qs[k]); l != [] && l[|l| - 1] != '\r' && forall i :: 0 <= i < |l| ==> l[i] != '\n'
    {
      LineShape(qs[k]);
    }
    assert forall k :: 1 <= k < |parts| ==> parts[k] == LineOf(qs[k - 1]);
    assert CsvText(header, qs) == Join(parts, "\n");
    SplitJoin(parts, '\n');
    SplitLinesWithoutCr(CsvText(header, qs));
    NonEmptyAll(parts);
  }

  /** A file written as a header and one line per question parses back to
      exactly those questions, with a blank domain read as none. */
  lemma ParseCsvRoundTrip(header: string, qs: seq<QuestionLine>)
    requires header != [] && header[|header| - 1] != '\r' && forall i :: 0 <= i < |header| ==> header[i] != '\n'
    requires forall k :: 0 <= k < |qs| ==> PlainField(qs[k].question) && PlainField(qs[k].domain)
    ensures ParseCsv(CsvText(header, qs)) == seq(|qs|, k requires 0 <= k < |qs| => Expected(qs[k]))
  {
    CsvLines(header, qs);
    var lines := [header] + Lines(qs);
    forall k | 0 <= k < |qs|
      ensures RowOf(Split(lines[k + 1], ',')) == Expected(qs[k])
    {
      assert lines[k + 1] == LineOf(qs[k]);
      LineRoundTrip(qs[k]);
    }
  }

  // ----- Storing the rows -----

  datatype StoredQuestion = StoredQuestion(question: string, count: Num, domain: Option<string>)

  /** The record created for a row by the import route and the startup
      seeding: `count: row.count || 1`. */
  function Store(row: CsvRow): (r: StoredQuestion)
    ensures r.question == row.question && r.domain == row.domain
    ensures Truthy(r.count)
    ensures r.count == row.count || (!Truthy(row.count) && r.count == Int(1))
  {
    StoredQuestion(row.question, if Truthy(row.count) then row.count else Int(1), row.domain)
  }

  /** The records created for `rows`: one per row with a question, in
      order. */
  function Imported(rows: seq<CsvRow>): (r: seq<StoredQuestion>)
    ensures |r| <= |rows|
    ensures forall k :: 0 <= k < |r| ==> r[k].question != "" && Truthy(r[k].count)
  {
    if |rows| == 0 then []
    else
      var last := rows[|rows| - 1];
      Imported(rows[..|rows| - 1]) + (if last.question == "" then [] else [Store(last)])
  }

  /** The loop `for (const row of rows) { if (!row.question) continue; ... }`,
      with the records it creates as its result. */
  method StoreQuestions(rows: seq<CsvRow>) returns (created: seq<StoredQuestion>)
    ensures created == Imported(rows)
  {
    created := [];
    for i := 0 to |rows|
      invariant created == Imported(rows[..i])
    {
      assert rows[..i + 1][..i] == rows[..i];
      var row := rows[i];
      if row.question == "" {
        continue;
      }
      created := created + [Store(row)];
    }
    assert rows[..|rows|] == rows;
  }

  /** Every stored question is non-empty with a count that is neither 0 nor
      NaN; each comes from a row, and every row with a question is stored,
      so all rows are stored exactly when none has an empty question. */
  lemma {:induction false} ImportedSpec(rows: seq<CsvRow>)
    ensures forall s :: s in Imported(rows) ==> s.question != "" && Truthy(s.count)
    ensures forall s :: s in Imported(rows) ==> exists k :: 0 <= k < |rows| && rows[k].question != "" && s == Store(rows[k])
    ensures forall k :: 0 <= k < |rows| && rows[k].question != "" ==> Store(rows[k]) in Imported(rows)
    ensures |Imported(rows)| == |rows| <==> forall k :: 0 <= k < |rows| ==> rows[k].question != ""
  {
    if |rows| > 0 {
      var init := rows[..|rows| - 1];
      ImportedSpec(init);
      assert forall k :: 0 <= k < |init| ==> init[k] == rows[k];
    }
  }

  /** The `file` entry of the upload form. */
  datatype FormValue = Missing | TextValue(text: string) | FileValue(content: string)

  /** The route's reply: 400 "File required", or `{ok: true, imported}`. */
  datatype ImportResponse = FileRequired | ImportedRows(imported: nat)

  /** The question import route: a missing or textual `file` is refused
      before anything is stored; otherwise the reply counts every parsed row,
      including those skipped for an empty question. */
  method ImportQuestions(file: FormValue) returns (response: ImportResponse, created: seq<StoredQuestion>)
    ensures !file.FileValue? ==> response == FileRequired && created == []
    ensures file.FileValue? ==> response == ImportedRows(|ParseCsv(file.content)|)
    ensures file.FileValue? ==> created == Imported(ParseCsv(file.content))
    ensures |created| <= (if response.ImportedRows? then response.imported else 0)
  {
    if !file.FileValue? {
      return FileRequired, [];
    }
    var rows := ParseCsv(file.content);
    created := StoreQuestions(rows);
    response := ImportedRows(|rows|);
  }
}
