/** The CSV tokenizer of the catalog route (`parseCSV`): the text is trimmed
    and split on newlines; the first line gives the headers, every non-blank
    later line a record. A double quote toggles "inside quotes" and is never
    copied; a comma outside quotes ends a field; every field is trimmed. */
module Csv {
  import opened Wrappers
  import opened Text
  import opened Records

  // ---------------------------------------------------------------------
  // Specification of one line's fields
  // ---------------------------------------------------------------------

  /** The scanner's state after a prefix of a line: the fields closed so far
      (untrimmed), the field being accumulated, and the quote flag. */
  datatype ScanState = ScanState(closed: seq<string>, current: string, inQuotes: bool)

  function Step(st: ScanState, c: char): ScanState {
    if c == '"' then st.(inQuotes := !st.inQuotes)
    else if c == ',' && !st.inQuotes then ScanState(st.closed + [st.current], "", st.inQuotes)
    else st.(current := st.current + [c])
  }

  function Scan(s: string): ScanState
    decreases |s|
  {
    if s == [] then ScanState([], "", false) else Step(Scan(s[..|s| - 1]), s[|s| - 1])
  }

  /** The untrimmed fields of a line. */
  function RawFields(line: string): seq<string> {
    Scan(line).closed + [Scan(line).current]
  }

  /** The field values of a line, as the tokenizer pushes them. */
  function Fields(line: string): seq<string> {
    MapTrim(RawFields(line))
  }

  // Reference notions against which the scanner is checked ---------------

  function QuoteCount(s: string): nat
    decreases |s|
  {
    if s == [] then 0 else QuoteCount(s[..|s| - 1]) + (if s[|s| - 1] == '"' then 1 else 0)
  }

  /** The number of commas that stand after an even number of quotes, i.e. outside quotes. */
  function SplittingCommas(s: string): nat
    decreases |s|
  {
    if s == [] then 0
    else
      var p := s[..|s| - 1];
      SplittingCommas(p) + (if s[|s| - 1] == ',' && QuoteCount(p) % 2 == 0 then 1 else 0)
  }

  /** `s` with every double quote removed. */
  function Unquoted(s: string): string
    decreases |s|
  {
    if s == [] then [] else Unquoted(s[..|s| - 1]) + (if s[|s| - 1] == '"' then [] else [s[|s| - 1]])
  }

  function JoinCommas(xs: seq<string>): string
    decreases |xs|
  {
    if |xs| == 0 then [] else if |xs| == 1 then xs[0] else JoinCommas(xs[..|xs| - 1]) + [','] + xs[|xs| - 1]
  }

  lemma JoinCommasSnoc(xs: seq<string>, x: string)
    ensures JoinCommas(xs + [x]) == if xs == [] then x else JoinCommas(xs) + [','] + x
  {
    assert (xs + [x])[..|xs|] == xs;
  }

  /** The quote flag is the parity of the quotes seen. */
  lemma {:induction false} ScanParity(s: string)
    ensures Scan(s).inQuotes <==> QuoteCount(s) % 2 == 1
    decreases |s|
  {
    if s != [] {
      ScanParity(s[..|s| - 1]);
    }
  }

  /** No field ever holds a double quote. */
  lemma {:induction false} RawFieldsQuoteFree(s: string)
    ensures forall i :: 0 <= i < |RawFields(s)| ==> '"' !in RawFields(s)[i]
    decreases |s|
  {
    if s != [] {
      var p := s[..|s| - 1];
      RawFieldsQuoteFree(p);
      var st := Scan(p);
      assert forall i :: 0 <= i < |st.closed| ==> '"' !in st.closed[i] by {
        assert forall i :: 0 <= i < |st.closed| ==> st.closed[i] == RawFields(p)[i];
      }
      assert '"' !in st.current by {
        assert st.current == RawFields(p)[|RawFields(p)| - 1];
      }
    }
  }

  /** Joining the fields back with commas gives the line without its quotes:
      the tokenizer loses nothing but the quote characters. */
  lemma {:induction false} RawFieldsJoin(s: string)
    ensures JoinCommas(RawFields(s)) == Unquoted(s)
    decreases |s|
  {
    if s != [] {
      var p := s[..|s| - 1];
      var c := s[|s| - 1];
      var st := Scan(p);
      RawFieldsJoin(p);
      assert JoinCommas(st.closed + [st.current]) == Unquoted(p);
      assert Scan(s) == Step(st, c);
      if c == '"' {
        assert RawFields(s) == st.closed + [st.current];
        assert Unquoted(s) == Unquoted(p) + [];
      } else if c == ',' && !st.inQuotes {
        assert RawFields(s) == (st.closed + [st.current]) + [""];
        JoinCommasSnoc(st.closed + [st.current], "");
        assert Unquoted(s) == Unquoted(p) + [c];
      } else {
        assert RawFields(s) == st.closed + [st.current + [c]];
        JoinCommasSnoc(st.closed, st.current);
        JoinCommasSnoc(st.closed, st.current + [c]);
        assert Unquoted(s) == Unquoted(p) + [c];
      }
    }
  }

  /** A line has one field more than it has commas that stand after an
      even number of quotes. Which commas those are is stated by `SplitAtComma`
      and `QuotedCommaKept`. */
  lemma {:induction false} FieldCount(s: string)
    ensures |RawFields(s)| == 1 + SplittingCommas(s)
    decreases |s|
  {
    if s != [] {
      ScanParity(s[..|s| - 1]);
      FieldCount(s[..|s| - 1]);
    }
  }

  /** The scanner run from state `st` over `q`. */
  function ScanFrom(st: ScanState, q: string): ScanState
    decreases |q|
  {
    if q == [] then st else Step(ScanFrom(st, q[..|q| - 1]), q[|q| - 1])
  }

  lemma {:induction false} ScanAppend(p: string, q: string)
    ensures Scan(p + q) == ScanFrom(Scan(p), q)
    decreases |q|
  {
    if q == [] {
      assert p + q == p;
    } else {
      var q' := q[..|q| - 1];
      ScanAppend(p, q');
      assert (p + q)[..|p + q| - 1] == p + q';
      assert (p + q)[|p + q| - 1] == q[|q| - 1];
    }
  }

  /** Scanning from a fresh field outside quotes, after the fields `c`, is
      scanning from the start with `c` in front. */
  lemma {:induction false} ScanFromFresh(c: seq<string>, q: string)
    ensures ScanFrom(ScanState(c, "", false), q) ==
            ScanState(c + Scan(q).closed, Scan(q).current, Scan(q).inQuotes)
    decreases |q|
  {
    if q != [] {
      var q' := q[..|q| - 1];
      ScanFromFresh(c, q');
      var st := Scan(q');
      if q[|q| - 1] == ',' && !st.inQuotes {
        assert (c + st.closed) + [st.current] == c + (st.closed + [st.current]);
      }
    }
  }

  /** A comma after an even number of quotes splits the line: the fields of
      `p + "," + q` are those of `p` followed by those of `q`. */
  lemma SplitAtComma(p: string, q: string)
    requires QuoteCount(p) % 2 == 0
    ensures RawFields(p + [','] + q) == RawFields(p) + RawFields(q)
  {
    ScanParity(p);
    ScanSnoc(p, ',');
    ScanAppend(p + [','], q);
    ScanFromFresh(RawFields(p), q);
  }

  /** A comma after an odd number of quotes is inside quotes: it is copied
      into the current field and splits nothing. */
  lemma QuotedCommaKept(p: string)
    requires QuoteCount(p) % 2 == 1
    ensures |RawFields(p + [','])| == |RawFields(p)|
    ensures RawFields(p + [','])[..|RawFields(p)| - 1] == RawFields(p)[..|RawFields(p)| - 1]
    ensures RawFields(p + [','])[|RawFields(p)| - 1] == RawFields(p)[|RawFields(p)| - 1] + [',']
  {
    ScanParity(p);
    ScanSnoc(p, ',');
    var st := Scan(p);
    assert RawFields(p + [',']) == st.closed + [st.current + [',']];
    assert RawFields(p)[..|RawFields(p)| - 1] == st.closed;
  }

  /** A line with no comma outside quotes is one field: the line without its
      quotes. */
  lemma OneField(s: string)
    requires SplittingCommas(s) == 0
    ensures RawFields(s) == [Unquoted(s)]
  {
    FieldCount(s);
    RawFieldsJoin(s);
  }

  /** The trimmed fields are quote-free and trimmed. */
  lemma FieldsClean(s: string)
    ensures forall i :: 0 <= i < |Fields(s)| ==> '"' !in Fields(s)[i] && Trim(Fields(s)[i]) == Fields(s)[i]
  {
    RawFieldsQuoteFree(s);
    forall i | 0 <= i < |Fields(s)|
      ensures '"' !in Fields(s)[i] && Trim(Fields(s)[i]) == Fields(s)[i]
    {
      TrimQuoteFree(RawFields(s)[i], '"');
      TrimIdempotent(RawFields(s)[i]);
    }
  }

  // ---------------------------------------------------------------------
  // Specification of the whole text
  // ---------------------------------------------------------------------

  const TooFewLines := "CSV file must have at least a header and one data row"
  const IndexKey := "originalIndex"

  function Lines(csvText: string): seq<string> {
    Split(Trim(csvText), '\n')
  }

  /** `values[index] || ''`. */
  function ValueAt(values: seq<string>, k: nat): string {
    if k < |values| then values[k] else ""
  }

  /** The record built by `headers.forEach((header, index) => product[header] = ...)`. */
  function Zip(headers: seq<string>, values: seq<string>): Record
    decreases |headers|
  {
    if headers == [] then []
    else Put(Zip(headers[..|headers| - 1], values), headers[|headers| - 1], Str(ValueAt(values, |headers| - 1)))
  }

  function MakeRecord(headers: seq<string>, values: seq<string>, index: int): Record {
    Put(Zip(headers, values), IndexKey, Num(index as real))
  }

  /** A line that `trim` does not reduce to nothing. */
  predicate NonBlank(line: string) {
    Trim(line) != []
  }

  /** The indices of the non-blank lines in `[1, upto)`, in order. */
  function DataRows(lines: seq<string>, upto: nat): (rows: seq<int>)
    requires upto <= |lines|
    ensures forall k :: 0 <= k < |rows| ==> 1 <= rows[k] < upto && NonBlank(lines[rows[k]])
  {
    if upto <= 1 then []
    else
      DataRows(lines, upto - 1) + (if NonBlank(lines[upto - 1]) then [upto - 1] else [])
  }

  /** The data rows come in line order. */
  lemma {:induction false} DataRowsOrdered(lines: seq<string>, upto: nat)
    requires upto <= |lines|
    ensures forall k, l :: 0 <= k < l < |DataRows(lines, upto)| ==> DataRows(lines, upto)[k] < DataRows(lines, upto)[l]
    decreases upto
  {
    if upto > 1 {
      var prev := DataRows(lines, upto - 1);
      var rows := DataRows(lines, upto);
      DataRowsOrdered(lines, upto - 1);
      assert rows == prev + if NonBlank(lines[upto - 1]) then [upto - 1] else [];
      forall k, l | 0 <= k < l < |rows|
        ensures rows[k] < rows[l]
      {
        assert rows[k] == prev[k];
        if l < |prev| {
          assert rows[l] == prev[l];
          assert prev[k] < prev[l];
        } else {
          assert rows[l] == upto - 1;
          assert prev[k] < upto - 1;
        }
      }
    }
  }

  /** The data rows miss no non-blank line after the header. */
  lemma {:induction false} DataRowsComplete(lines: seq<string>, upto: nat)
    requires upto <= |lines|
    ensures forall i :: 1 <= i < upto && NonBlank(lines[i]) ==> i in DataRows(lines, upto)
    decreases upto
  {
    if upto > 1 {
      var prev := DataRows(lines, upto - 1);
      var rows := DataRows(lines, upto);
      var last := if NonBlank(lines[upto - 1]) then [upto - 1] else [];
      DataRowsComplete(lines, upto - 1);
      assert rows == prev + last;
      assert NonBlank(lines[upto - 1]) ==> upto - 1 in last;
    }
  }

  /** The data rows come in line order and miss no non-blank line. */
  lemma DataRowsFacts(lines: seq<string>, upto: nat)
    requires upto <= |lines|
    ensures var rows := DataRows(lines, upto);
            && (forall k, l :: 0 <= k < l < |rows| ==> rows[k] < rows[l])
            && (forall i :: 1 <= i < upto && NonBlank(lines[i]) ==> i in rows)
  {
    DataRowsOrdered(lines, upto);
    DataRowsComplete(lines, upto);
  }

  function RowRecords(headers: seq<string>, lines: seq<string>, rows: seq<int>): (r: seq<Record>)
    requires forall k :: 0 <= k < |rows| ==> 0 <= rows[k] < |lines|
    ensures |r| == |rows|
  {
    seq(|rows|, k requires 0 <= k < |rows| => MakeRecord(headers, Fields(Trim(lines[rows[k]])), rows[k] - 1))
  }

  lemma RowRecordsSnoc(headers: seq<string>, lines: seq<string>, rows: seq<int>, x: int)
    requires forall k :: 0 <= k < |rows| ==> 0 <= rows[k] < |lines|
    requires 0 <= x < |lines|
    ensures RowRecords(headers, lines, rows + [x])
         == RowRecords(headers, lines, rows) + [MakeRecord(headers, Fields(Trim(lines[x])), x - 1)]
  {
    var a := RowRecords(headers, lines, rows + [x]);
    var b := RowRecords(headers, lines, rows) + [MakeRecord(headers, Fields(Trim(lines[x])), x - 1)];
    assert |a| == |b|;
    forall k | 0 <= k < |a|
      ensures a[k] == b[k]
    {
      if k < |rows| {
        assert (rows + [x])[k] == rows[k];
      } else {
        assert (rows + [x])[k] == x;
      }
    }
  }

  /** One more line: a blank one adds no record, a non-blank one adds its own. */
  lemma RowRecordsStep(headers: seq<string>, lines: seq<string>, i: nat)
    requires 1 <= i < |lines|
    ensures RowRecords(headers, lines, DataRows(lines, i + 1))
         == RowRecords(headers, lines, DataRows(lines, i))
            + (if NonBlank(lines[i]) then [MakeRecord(headers, Fields(Trim(lines[i])), i - 1)] else [])
  {
    if NonBlank(lines[i]) {
      RowRecordsSnoc(headers, lines, DataRows(lines, i), i);
    } else {
      assert DataRows(lines, i + 1) == DataRows(lines, i);
    }
  }

  /** What `parseCSV` returns or throws. */
  function ParsedRecords(csvText: string): Result<seq<Record>, string> {
    var lines := Lines(csvText);
    if |lines| < 2 then Failure(TooFewLines)
    else
      var headers := Fields(lines[0]);
      Success(RowRecords(headers, lines, DataRows(lines, |lines|)))
  }

  // ---------------------------------------------------------------------
  // The tokenizer
  // ---------------------------------------------------------------------

  /** The character loop of `parseCSV`, run on the header line and on each data line. */
  method SplitFields(line: string) returns (values: seq<string>)
    ensures values == Fields(line)
  {
    values := [];
    var current := "";
    var inQuotes := false;
    for j := 0 to |line|
      invariant Scan(line[..j]).current == current
      invariant Scan(line[..j]).inQuotes == inQuotes
      invariant values == MapTrim(Scan(line[..j]).closed)
    {
      assert line[..j + 1][..j] == line[..j];
      var c := line[j];
      if c == '"' {
        inQuotes := !inQuotes;
      } else if c == ',' && !inQuotes {
        values := values + [Trim(current)];
        current := "";
      } else {
        current := current + [c];
      }
    }
    assert line[..|line|] == line;
    values := values + [Trim(current)];
  }

  method ZipRecord(headers: seq<string>, values: seq<string>) returns (product: Record)
    ensures product == Zip(headers, values)
  {
    product := [];
    for index := 0 to |headers|
      invariant product == Zip(headers[..index], values)
    {
      assert headers[..index + 1][..index] == headers[..index];
      var value := if index < |values| then values[index] else "";
      product := Put(product, headers[index], Str(value));
    }
    assert headers[..|headers|] == headers;
  }

  method ParseCSV(csvText: string) returns (res: Result<seq<Record>, string>)
    ensures res == ParsedRecords(csvText)
  {
    var lines := Split(Trim(csvText), '\n');
    if |lines| < 2 {
      return Failure(TooFewLines);
    }
    var headers := SplitFields(lines[0]);
    var products: seq<Record> := [];
    for i := 1 to |lines|
      invariant products == RowRecords(headers, lines, DataRows(lines, i))
    {
      RowRecordsStep(headers, lines, i);
      var line := Trim(lines[i]);
      if line == [] {
        continue;
      }
      var values := SplitFields(line);
      var product := ZipRecord(headers, values);
      product := Put(product, IndexKey, Num((i - 1) as real));
      products := products + [product];
    }
    return Success(products);
  }

  // ---------------------------------------------------------------------
  // Properties of the parse
  // ---------------------------------------------------------------------

  /** `parseCSV` throws exactly when the trimmed text has no newline. */
  lemma ParseFailsIffOneLine(csvText: string)
    ensures ParsedRecords(csvText).Failure? <==> '\n' !in Trim(csvText)
    ensures ParsedRecords(csvText).Failure? ==> ParsedRecords(csvText).error == TooFewLines
  {
    SplitSingle(Trim(csvText), '\n');
  }

  /** When it does not throw, it returns at least one record: the last line
      of a trimmed text is never blank. */
  lemma ParseNonEmpty(csvText: string)
    requires ParsedRecords(csvText).Success?
    ensures |ParsedRecords(csvText).value| >= 1
  {
    var t := Trim(csvText);
    var lines := Lines(csvText);
    var last := |lines| - 1;
    SplitSingle(t, '\n');
    TrimFacts(csvText);
    SplitLastPiece(t, '\n');
    TrimNonEmpty(lines[last], |lines[last]| - 1);
    DataRowsFacts(lines, |lines|);
    assert last in DataRows(lines, |lines|);
  }

  lemma {:induction false} ZipKeys(headers: seq<string>, values: seq<string>)
    ensures forall k :: k in Keys(Zip(headers, values)) <==> k in headers
    ensures UniqueKeys(Zip(headers, values))
    decreases |headers|
  {
    if headers != [] {
      ZipKeys(headers[..|headers| - 1], values);
      assert headers == headers[..|headers| - 1] + [headers[|headers| - 1]];
    }
  }

  /** A header takes the value of its LAST column (later duplicates overwrite
      earlier ones); a column missing from the line gives "". */
  lemma {:induction false} ZipValue(headers: seq<string>, values: seq<string>, k: nat)
    requires k < |headers|
    requires forall j :: k < j < |headers| ==> headers[j] != headers[k]
    ensures Get(Zip(headers, values), headers[k]) == Some(Str(ValueAt(values, k)))
    decreases |headers|
  {
    if k < |headers| - 1 {
      ZipValue(headers[..|headers| - 1], values, k);
    }
  }

  /** A string value that is trimmed and holds no double quote. */
  predicate CleanValue(v: Value) {
    v.Str? && '"' !in v.s && Trim(v.s) == v.s
  }

  lemma {:induction false} ZipValuesClean(headers: seq<string>, values: seq<string>)
    requires forall i :: 0 <= i < |values| ==> '"' !in values[i] && Trim(values[i]) == values[i]
    ensures AllValues(Zip(headers, values), CleanValue)
    decreases |headers|
  {
    if headers != [] {
      ZipValuesClean(headers[..|headers| - 1], values);
      PutAllValues(Zip(headers[..|headers| - 1], values), headers[|headers| - 1],
        Str(ValueAt(values, |headers| - 1)), CleanValue);
    }
  }

  /** The shape of one record built from a header line and a data line:
      exactly the header keys plus `originalIndex`, each key once;
      `originalIndex` is the given index; a header's value is its column's
      field, or "" when the line has fewer fields; when the fields are
      trimmed and quote-free, so are all the header values. */
  lemma MakeRecordShape(headers: seq<string>, values: seq<string>, index: int)
    ensures var rec := MakeRecord(headers, values, index);
            && (forall k :: k in Keys(rec) <==> k in headers || k == IndexKey)
            && UniqueKeys(rec)
            && Get(rec, IndexKey) == Some(Num(index as real))
            && (forall k ::
                  (0 <= k < |headers| && headers[k] != IndexKey &&
                   (forall j :: k < j < |headers| ==> headers[j] != headers[k])) ==>
                  Get(rec, headers[k]) == Some(Str(ValueAt(values, k))))
            && ((forall i :: 0 <= i < |values| ==> '"' !in values[i] && Trim(values[i]) == values[i]) ==>
                (forall key :: key in Keys(rec) && key != IndexKey ==> CleanValue(Get(rec, key).value)))
  {
    var rec := MakeRecord(headers, values, index);
    ZipKeys(headers, values);
    forall k | 0 <= k < |headers| && headers[k] != IndexKey &&
        (forall j :: k < j < |headers| ==> headers[j] != headers[k])
      ensures Get(rec, headers[k]) == Some(Str(ValueAt(values, k)))
    {
      ZipValue(headers, values, k);
    }
    if forall i :: 0 <= i < |values| ==> '"' !in values[i] && Trim(values[i]) == values[i] {
      ZipValuesClean(headers, values);
      forall key | key in Keys(rec) && key != IndexKey
        ensures CleanValue(Get(rec, key).value)
      {
        GetAllValues(Zip(headers, values), key, CleanValue);
      }
    }
  }

  /** Every parsed record has that shape, with the fields of its own line
      (always trimmed and quote-free) and `originalIndex` its line index minus one. */
  lemma RecordShape(csvText: string, n: nat)
    requires ParsedRecords(csvText).Success? && n < |ParsedRecords(csvText).value|
    ensures var lines := Lines(csvText);
            var rows := DataRows(lines, |lines|);
            ParsedRecords(csvText).value[n]
              == MakeRecord(Fields(lines[0]), Fields(Trim(lines[rows[n]])), rows[n] - 1)
    ensures var lines := Lines(csvText);
            var rows := DataRows(lines, |lines|);
            var rec := ParsedRecords(csvText).value[n];
            forall key :: key in Keys(rec) && key != IndexKey ==> CleanValue(Get(rec, key).value)
  {
    var lines := Lines(csvText);
    var rows := DataRows(lines, |lines|);
    var headers := Fields(lines[0]);
    var values := Fields(Trim(lines[rows[n]]));
    assert ParsedRecords(csvText).value == RowRecords(headers, lines, rows);
    assert ParsedRecords(csvText).value[n] == MakeRecord(headers, values, rows[n] - 1);
    FieldsClean(Trim(lines[rows[n]]));
    MakeRecordShape(headers, values, rows[n] - 1);
  }

  /** Records follow the lines: one per non-blank data line, in order, with
      strictly increasing `originalIndex`; blank lines give none. */
  lemma RecordOrder(csvText: string)
    requires ParsedRecords(csvText).Success?
    ensures var lines := Lines(csvText);
            var rows := DataRows(lines, |lines|);
            && |ParsedRecords(csvText).value| == |rows|
            && (forall i :: 1 <= i < |lines| ==> (i in rows <==> Trim(lines[i]) != []))
            && (forall k, l :: 0 <= k < l < |rows| ==> rows[k] - 1 < rows[l] - 1)
  {
    var lines := Lines(csvText);
    DataRowsFacts(lines, |lines|);
  }

  lemma ScanSnoc(p: string, c: char)
    ensures Scan(p + [c]) == Step(Scan(p), c)
  {
    assert (p + [c])[..|p|] == p;
  }

  lemma QuotedCommaPrefix1()
    ensures Scan("\"A\"") == ScanState([], "A", false)
  {
    ScanSnoc("", '"');
    assert "" + ['"'] == "\"";
    assert Scan("\"") == ScanState([], "", true);
    ScanSnoc("\"", 'A');
    assert "\"" + ['A'] == "\"A";
    assert Scan("\"A") == ScanState([], "A", true);
    ScanSnoc("\"A", '"');
    assert "\"A" + ['"'] == "\"A\"";
  }

  lemma QuotedCommaPrefix2()
    ensures Scan("\"A\",\"B") == ScanState(["A"], "B", true)
  {
    QuotedCommaPrefix1();
    ScanSnoc("\"A\"", ',');
    assert "\"A\"" + [','] == "\"A\",";
    assert [] + ["A"] == ["A"];
    assert Scan("\"A\",") == ScanState(["A"], "", false);
    ScanSnoc("\"A\",", '"');
    assert "\"A\"," + ['"'] == "\"A\",\"";
    assert Scan("\"A\",\"") == ScanState(["A"], "", true);
    ScanSnoc("\"A\",\"", 'B');
    assert "\"A\",\"" + ['B'] == "\"A\",\"B";
  }

  lemma QuotedCommaPrefix3()
    ensures Scan("\"A\",\"B, C") == ScanState(["A"], "B, C", true)
  {
    QuotedCommaPrefix2();
    ScanSnoc("\"A\",\"B", ',');
    assert "\"A\",\"B" + [','] == "\"A\",\"B,";
    assert Scan("\"A\",\"B,") == ScanState(["A"], "B,", true);
    ScanSnoc("\"A\",\"B,", ' ');
    assert "\"A\",\"B," + [' '] == "\"A\",\"B, ";
    assert Scan("\"A\",\"B, ") == ScanState(["A"], "B, ", true);
    ScanSnoc("\"A\",\"B, ", 'C');
    assert "\"A\",\"B, " + ['C'] == "\"A\",\"B, C";
  }

  lemma QuotedCommaPrefix4()
    ensures Scan("\"A\",\"B, C\",5") == ScanState(["A", "B, C"], "5", false)
  {
    QuotedCommaPrefix3();
    ScanSnoc("\"A\",\"B, C", '"');
    assert "\"A\",\"B, C" + ['"'] == "\"A\",\"B, C\"";
    assert Scan("\"A\",\"B, C\"") == ScanState(["A"], "B, C", false);
    ScanSnoc("\"A\",\"B, C\"", ',');
    assert "\"A\",\"B, C\"" + [','] == "\"A\",\"B, C\",";
    assert ["A"] + ["B, C"] == ["A", "B, C"];
    assert Scan("\"A\",\"B, C\",") == ScanState(["A", "B, C"], "", false);
    ScanSnoc("\"A\",\"B, C\",", '5');
    assert "\"A\",\"B, C\"," + ['5'] == "\"A\",\"B, C\",5";
  }

  lemma QuotedCommaPrefix5()
    ensures Scan("\"A\",\"B, C\",5,10") == ScanState(["A", "B, C", "5"], "10", false)
  {
    QuotedCommaPrefix4();
    ScanSnoc("\"A\",\"B, C\",5", ',');
    assert "\"A\",\"B, C\",5" + [','] == "\"A\",\"B, C\",5,";
    assert ["A", "B, C"] + ["5"] == ["A", "B, C", "5"];
    assert Scan("\"A\",\"B, C\",5,") == ScanState(["A", "B, C", "5"], "", false);
    ScanSnoc("\"A\",\"B, C\",5,", '1');
    assert "" + ['1'] == "1";
    assert "\"A\",\"B, C\",5," + ['1'] == "\"A\",\"B, C\",5,1";
    assert Scan("\"A\",\"B, C\",5,1") == ScanState(["A", "B, C", "5"], "1", false);
    ScanSnoc("\"A\",\"B, C\",5,1", '0');
    assert "\"A\",\"B, C\",5,1" + ['0'] == "\"A\",\"B, C\",5,10";
    assert "1" + ['0'] == "10";
  }

  /** The example of a quoted field holding a comma. */
  lemma QuotedCommaExample()
    ensures Fields("\"A\",\"B, C\",5,10") == ["A", "B, C", "5", "10"]
  {
    QuotedCommaPrefix5();
    assert TrimStart("B, C") == "B, C" && TrimEnd("B, C") == "B, C";
  }
}
