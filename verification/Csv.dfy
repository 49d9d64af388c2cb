/** RFC 4180 CSV: the reader (app/src/backtest/csvImporter.ts), the writer (app/src/web/csv.ts) and their round trip. */
module Csv {

  datatype Parsed = Records(records: seq<seq<string>>) | UnterminatedQuote

  const BOM: char := '\U{FEFF}'

  /** The characters `String.prototype.trim` removes. */
  predicate IsSpace(c: char) {
    || '\t' <= c <= '\r' || c == ' ' || c == '\U{00A0}' || c == '\U{1680}' || '\U{2000}' <= c <= '\U{200A}'
    || c == '\U{2028}' || c == '\U{2029}' || c == '\U{202F}' || c == '\U{205F}' || c == '\U{3000}' || c == BOM
  }

  /** By code point: the white space and line ends of ECMAScript. */
  lemma SpacesAre(c: char)
    ensures IsSpace(c)
            <==> c as int in {9, 10, 11, 12, 13, 32, 160, 5760, 8192, 8193, 8194, 8195, 8196, 8197, 8198, 8199, 8200, 8201, 8202,
                              8232, 8233, 8239, 8287, 12288, 65279}
  {
  }

  predicate IsBlank(r: seq<string>) {
    |r| == 1 && forall k :: 0 <= k < |r[0]| ==> IsSpace(r[0][k])
  }

  function DropBlank(records: seq<seq<string>>): seq<seq<string>> {
    if records == [] then []
    else DropBlank(records[..|records| - 1]) + if IsBlank(records[|records| - 1]) then [] else [records[|records| - 1]]
  }

  // ---- the reader ---------------------------------------------------------------------------------------

  /** The reader's variables. */
  datatype Reader = Reader(records: seq<seq<string>>, record: seq<string>, field: string, quoted: bool)

  const FRESH := Reader([], [], "", false)

  /** The reader after the rest of the text. */
  function Scan(rest: string, r: Reader): Reader
    decreases |rest|
  {
    if rest == [] then r
    else
      var ch := rest[0];
      if r.quoted then
        if ch != '"' then Scan(rest[1..], r.(field := r.field + [ch]))
        else if |rest| > 1 && rest[1] == '"' then Scan(rest[2..], r.(field := r.field + ['"']))
        else Scan(rest[1..], r.(quoted := false))
      else if ch == '"' && r.field == "" then Scan(rest[1..], r.(quoted := true))
      else if ch == ',' then Scan(rest[1..], r.(record := r.record + [r.field], field := ""))
      else if ch == '\r' && |rest| > 1 && rest[1] == '\n' then Scan(rest[2..], EndRecord(r))
      else if ch == '\n' || ch == '\r' then Scan(rest[1..], EndRecord(r))
      else Scan(rest[1..], r.(field := r.field + [ch]))
  }

  function EndRecord(r: Reader): Reader {
    Reader(r.records + [r.record + [r.field]], [], "", r.quoted)
  }

  function Finish(r: Reader): Parsed {
    if r.quoted then UnterminatedQuote
    else Records(DropBlank(if r.field != "" || r.record != [] then EndRecord(r).records else r.records))
  }

  function WithoutBom(text: string): string {
    if text != [] && text[0] == BOM then text[1..] else text
  }

  function ParsedCsv(text: string): Parsed {
    Finish(Scan(WithoutBom(text), FRESH))
  }

  method ParseCsv(text: string) returns (result: Parsed)
    ensures result == ParsedCsv(text)
  {
    var records, field, record, quoted := [], "", [], false;
    var i := if |text| > 0 && text[0] == BOM then 1 else 0;
    while i < |text|
      invariant 0 <= i <= |text|
      invariant Scan(text[i..], Reader(records, record, field, quoted)) == Scan(WithoutBom(text), FRESH)
    {
      var ch := text[i];
      assert text[i..][1..] == text[i + 1..];
      assert i + 1 < |text| ==> text[i..][2..] == text[i + 2..];
      if quoted {
        if ch == '"' {
          if i + 1 < |text| && text[i + 1] == '"' {
            field := field + ['"'];
            i := i + 1;
          } else {
            quoted := false;
          }
        } else {
          field := field + [ch];
        }
      } else if ch == '"' && field == "" {
        quoted := true;
      } else if ch == ',' {
        record := record + [field];
        field := "";
      } else if ch == '\n' || ch == '\r' {
        if ch == '\r' && i + 1 < |text| && text[i + 1] == '\n' {
          i := i + 1;
        }
        record := record + [field];
        records := records + [record];
        record := [];
        field := "";
      } else {
        field := field + [ch];
      }
      i := i + 1;
    }
    assert text[i..] == [];
    if quoted {
      return UnterminatedQuote;
    }
    if field != "" || |record| > 0 {
      record := record + [field];
      records := records + [record];
    }
    var kept := [];
    var k := 0;
    while k < |records|
      invariant 0 <= k <= |records| && kept == DropBlank(records[..k])
    {
      assert records[..k + 1][..k] == records[..k];
      if !IsBlank(records[k]) {
        kept := kept + [records[k]];
      }
      k := k + 1;
    }
    assert records[..k] == records;
    return Records(kept);
  }

  // ---- the writer ---------------------------------------------------------------------------------------

  predicate NeedsQuotes(s: string) {
    '"' in s || ',' in s || '\r' in s || '\n' in s
  }

  function Escape(s: string): string {
    if s == [] then [] else (if s[0] == '"' then "\"\"" else [s[0]]) + Escape(s[1..])
  }

  function Field(s: string): string {
    if NeedsQuotes(s) then "\"" + Escape(s) + "\"" else s
  }

  function Line(record: seq<string>): string {
    if record == [] then "" else if |record| == 1 then Field(record[0]) else Field(record[0]) + "," + Line(record[1..])
  }

  function Lines(records: seq<seq<string>>): string {
    if records == [] then "" else Line(records[0]) + "\r\n" + Lines(records[1..])
  }

  function ToCsv(header: seq<string>, rows: seq<seq<string>>): string {
    Lines([header] + rows)
  }

  // ---- reading what was written -------------------------------------------------------------------------

  lemma {:induction false} ScanPlain(s: string, rest: string, r: Reader)
    requires !NeedsQuotes(s) && !r.quoted
    ensures Scan(s + rest, r) == Scan(rest, r.(field := r.field + s))
    decreases |s|
  {
    if s == [] {
      assert s + rest == rest && r.field + s == r.field;
    } else {
      assert (s + rest)[1..] == s[1..] + rest;
      ScanPlain(s[1..], rest, r.(field := r.field + [s[0]]));
      assert (r.field + [s[0]]) + s[1..] == r.field + s;
    }
  }

  /** One character of a quoted field, as it was written. */
  lemma ScanQuoted(c: char, rest: string, r: Reader)
    requires r.quoted
    ensures Scan((if c == '"' then "\"\"" else [c]) + rest, r) == Scan(rest, r.(field := r.field + [c]))
  {
    if c == '"' {
      assert ("\"\"" + rest)[2..] == rest;
    } else {
      assert ([c] + rest)[1..] == rest;
    }
  }

  lemma ScanClosing(rest: string, r: Reader)
    requires r.quoted && (rest == [] || rest[0] != '"')
    ensures Scan("\"" + rest, r) == Scan(rest, r.(quoted := false))
  {
    assert ("\"" + rest)[1..] == rest;
  }

  lemma Associate(a: string, b: string, c: string)
    ensures (a + b) + c == a + (b + c)
  {
  }

  lemma {:induction false} ScanEscaped(s: string, rest: string, r: Reader)
    requires r.quoted && (rest == [] || rest[0] != '"')
    ensures Scan(Escape(s) + ("\"" + rest), r) == Scan(rest, r.(field := r.field + s, quoted := false))
    decreases |s|
  {
    if s == [] {
      assert Escape(s) + ("\"" + rest) == "\"" + rest && r.field + s == r.field;
      ScanClosing(rest, r);
    } else {
      Associate(if s[0] == '"' then "\"\"" else [s[0]], Escape(s[1..]), "\"" + rest);
      ScanQuoted(s[0], Escape(s[1..]) + ("\"" + rest), r);
      ScanEscaped(s[1..], rest, r.(field := r.field + [s[0]]));
      assert (r.field + [s[0]]) + s[1..] == r.field + s;
    }
  }

  lemma ScanField(s: string, rest: string, r: Reader)
    requires !r.quoted && r.field == "" && (rest == [] || rest[0] != '"')
    ensures Scan(Field(s) + rest, r) == Scan(rest, r.(field := s))
  {
    assert "" + s == s;
    if NeedsQuotes(s) {
      var text := Field(s) + rest;
      assert text[1..] == Escape(s) + ("\"" + rest);
      ScanEscaped(s, rest, r.(quoted := true));
    } else {
      ScanPlain(s, rest, r);
    }
  }

  /** What the reader makes of a written record: a record without fields is written as an empty line and read as
      one empty field. */
  function ReadBack(record: seq<string>): seq<string> {
    if record == [] then [""] else record
  }

  /** What may end a record. */
  predicate IsEnd(end: string) { end == "\r\n" || end == "\n" || end == "\r" }

  /** A lone carriage return is not one if a line feed follows. */
  predicate Stands(end: string, rest: string) { IsEnd(end) && (end == "\r" && rest != [] ==> rest[0] != '\n') }

  lemma ScanEnd(end: string, rest: string, r: Reader)
    requires !r.quoted && Stands(end, rest)
    ensures Scan(end + rest, r) == Scan(rest, EndRecord(r))
  {
    assert (end + rest)[|end|..] == rest;
    assert |end| == 1 && rest != [] ==> (end + rest)[1] == rest[0];
  }

  lemma ScanComma(rest: string, r: Reader)
    requires !r.quoted
    ensures Scan("," + rest, r) == Scan(rest, r.(record := r.record + [r.field], field := ""))
  {
    assert ("," + rest)[1..] == rest;
  }

  lemma LineSplits(record: seq<string>, end: string)
    requires |record| > 1
    ensures Line(record) + end == Field(record[0]) + ("," + (Line(record[1..]) + end))
  {
    CommaBetween(Field(record[0]), Line(record[1..]), end);
  }

  lemma CommaBetween(a: string, b: string, c: string)
    ensures (a + "," + b) + c == a + ("," + (b + c))
  {
  }

  lemma ScanFieldComma(s: string, more: string, r: Reader)
    requires !r.quoted && r.field == ""
    ensures Scan(Field(s) + ("," + more), r) == Scan(more, r.(record := r.record + [s]))
  {
    ScanField(s, "," + more, r);
    ScanComma(more, r.(field := s));
  }

  lemma ScanShortLine(record: seq<string>, end: string, rest: string, r: Reader)
    requires !r.quoted && r.field == "" && |record| <= 1 && Stands(end, rest)
    ensures Scan(Line(record) + (end + rest), r) == Scan(rest, Reader(r.records + [r.record + ReadBack(record)], [], "", false))
  {
    var field := if record == [] then "" else record[0];
    assert ReadBack(record) == [field] && Line(record) == Field(field);
    ScanField(field, end + rest, r);
    ScanEnd(end, rest, r.(field := field));
  }

  lemma HeadAndTail(before: seq<string>, record: seq<string>)
    requires record != []
    ensures (before + [record[0]]) + record[1..] == before + record
  {
  }

  lemma {:induction false} ScanLine(record: seq<string>, end: string, rest: string, r: Reader)
    requires !r.quoted && r.field == "" && Stands(end, rest)
    ensures Scan(Line(record) + (end + rest), r) == Scan(rest, Reader(r.records + [r.record + ReadBack(record)], [], "", false))
    decreases |record|
  {
    if |record| <= 1 {
      ScanShortLine(record, end, rest, r);
    } else {
      LineSplits(record, end + rest);
      ScanFieldComma(record[0], Line(record[1..]) + (end + rest), r);
      ScanLine(record[1..], end, rest, r.(record := r.record + [record[0]]));
      HeadAndTail(r.record, record);
    }
  }

  function ReadBackAll(records: seq<seq<string>>): seq<seq<string>> {
    seq(|records|, k requires 0 <= k < |records| => ReadBack(records[k]))
  }

  lemma ReadBackFirst(before: seq<seq<string>>, records: seq<seq<string>>)
    requires records != []
    ensures (before + [ReadBack(records[0])]) + ReadBackAll(records[1..]) == before + ReadBackAll(records)
  {
  }

  lemma {:induction false} ScanLines(records: seq<seq<string>>, r: Reader)
    requires !r.quoted && r.field == "" && r.record == []
    ensures Scan(Lines(records), r) == Reader(r.records + ReadBackAll(records), [], "", false)
    decreases |records|
  {
    if records == [] {
      assert r.records + ReadBackAll(records) == r.records;
    } else {
      var rest := Lines(records[1..]);
      LineEnd(Line(records[0]), rest);
      ScanLine(records[0], "\r\n", rest, r);
      assert r.record + ReadBack(records[0]) == ReadBack(records[0]);
      ScanLines(records[1..], Reader(r.records + [ReadBack(records[0])], [], "", false));
      ReadBackFirst(r.records, records);
    }
  }

  lemma LineEnd(a: string, b: string)
    ensures (a + "\r\n") + b == a + ("\r\n" + b)
  {
  }

  /** The byte-order mark is the only thing the reader drops in front. */
  lemma BomLine(header: seq<string>, rows: seq<seq<string>>)
    requires ToCsv(header, rows) != [] && ToCsv(header, rows)[0] == BOM
    ensures header != [] && header[0] != [] && header[0][0] == BOM
    ensures WithoutBom(ToCsv(header, rows)) == ToCsv([header[0][1..]] + header[1..], rows)
  {
    var rest := "\r\n" + Lines(rows);
    LinesSplit(header, rows);
    BomField(header, rest);
    LinesSplit([header[0][1..]] + header[1..], rows);
    DropFirst(header, rest);
  }

  /** What follows the first field of a line. */
  function More(others: seq<string>, rest: string): string {
    if others == [] then rest else "," + (Line(others) + rest)
  }

  lemma FirstField(header: seq<string>, rest: string)
    requires header != []
    ensures Line(header) + rest == Field(header[0]) + More(header[1..], rest)
  {
    if |header| > 1 { LineSplits(header, rest); }
  }

  lemma TailOfSum(b: string, c: string)
    requires b != []
    ensures (b + c)[1..] == b[1..] + c
  {
  }

  lemma TailIsPlain(s: string)
    requires s != [] && !NeedsQuotes(s)
    ensures Field(s) == s && Field(s[1..]) == s[1..]
  {
  }

  lemma DropFirst(header: seq<string>, rest: string)
    requires header != [] && header[0] != [] && !NeedsQuotes(header[0])
    ensures (Line(header) + rest)[1..] == Line([header[0][1..]] + header[1..]) + rest
  {
    var h := [header[0][1..]] + header[1..];
    TailIsPlain(header[0]);
    FirstField(header, rest);
    TailOfSum(header[0], More(header[1..], rest));
    assert h[0] == header[0][1..] && h[1..] == header[1..];
    FirstField(h, rest);
  }

  lemma LinesSplit(header: seq<string>, rows: seq<seq<string>>)
    ensures ToCsv(header, rows) == Line(header) + ("\r\n" + Lines(rows))
  {
    assert ([header] + rows)[1..] == rows;
  }

  /** A line that starts with the mark starts with an unquoted field that does. */
  lemma BomField(header: seq<string>, rest: string)
    requires rest != [] && rest[0] != BOM && (Line(header) + rest)[0] == BOM
    ensures header != [] && header[0] != [] && header[0][0] == BOM && !NeedsQuotes(header[0])
  {
    if header != [] {
      FirstField(header, rest);
      assert (Field(header[0]) + More(header[1..], rest))[0] == BOM;
    }
  }

  lemma WrittenIsRead(header: seq<string>, rows: seq<seq<string>>)
    requires ToCsv(header, rows) != [] && ToCsv(header, rows)[0] != BOM
    ensures ParsedCsv(ToCsv(header, rows)) == Records(DropBlank(ReadBackAll([header] + rows)))
  {
    ScanLines([header] + rows, FRESH);
    assert [] + ReadBackAll([header] + rows) == ReadBackAll([header] + rows);
  }

  lemma {:induction false} DropBlankShortens(records: seq<seq<string>>)
    ensures |DropBlank(records)| <= |records|
    ensures DropBlank(records) == records <==> forall k :: 0 <= k < |records| ==> !IsBlank(records[k])
    ensures (exists k :: 0 <= k < |records| && IsBlank(records[k])) ==> |DropBlank(records)| < |records|
  {
    if records != [] {
      var n := |records| - 1;
      DropBlankShortens(records[..n]);
      if !IsBlank(records[n]) {
        assert records == records[..n] + [records[n]];
        if k :| 0 <= k < |records| && IsBlank(records[k]) { assert IsBlank(records[..n][k]); }
      }
      if DropBlank(records) == records {
        assert DropBlank(records)[..n] == records[..n];
      }
    }
  }

  /** A record that survives being written and read. */
  predicate Survives(r: seq<string>) {
    r != [] && !IsBlank(r)
  }

  /** Dropping blank records never returns another header. */
  lemma OtherHeader(back: seq<seq<string>>, all: seq<seq<string>>)
    requires |back| == |all| > 0 && back[0] != all[0]
    ensures DropBlank(back) != all
  {
    DropBlankShortens(back);
  }

  /** A text that starts with the mark comes back without it. */
  lemma BomIsLost(header: seq<string>, rows: seq<seq<string>>)
    requires ToCsv(header, rows) != [] && ToCsv(header, rows)[0] == BOM
    ensures ParsedCsv(ToCsv(header, rows)) != Records([header] + rows)
  {
    BomLine(header, rows);
    var h := [header[0][1..]] + header[1..];
    ScanLines([h] + rows, FRESH);
    var back := ReadBackAll([h] + rows);
    assert [] + back == back;
    assert back[0] == h && |h[0]| != |header[0]|;
    OtherHeader(back, [header] + rows);
  }

  /** Reading back what was written returns exactly the header and the rows if and only if every record has a
      field, none is a single blank field, and the text does not start with a byte-order mark. */
  lemma RoundTrip(header: seq<string>, rows: seq<seq<string>>)
    ensures ToCsv(header, rows) != []
    ensures ParsedCsv(ToCsv(header, rows)) == Records([header] + rows)
            <==> ToCsv(header, rows)[0] != BOM && forall k :: 0 <= k < |[header] + rows| ==> Survives(([header] + rows)[k])
  {
    var all := [header] + rows;
    LinesSplit(header, rows);
    if ToCsv(header, rows)[0] == BOM {
      BomIsLost(header, rows);
    } else {
      WrittenIsRead(header, rows);
      DropBlankShortens(ReadBackAll(all));
      ReadBackIsSame(all);
    }
  }

  lemma ReadBackIsSame(records: seq<seq<string>>)
    ensures (forall k :: 0 <= k < |records| ==> Survives(records[k]))
            <==> (ReadBackAll(records) == records && forall k :: 0 <= k < |records| ==> !IsBlank(ReadBackAll(records)[k]))
  {
    var back := ReadBackAll(records);
    if forall k :: 0 <= k < |records| ==> Survives(records[k]) {
      assert forall k :: 0 <= k < |records| ==> back[k] == records[k];
      assert back == records;
    }
    if back == records && forall k :: 0 <= k < |records| ==> !IsBlank(back[k]) {
      forall k | 0 <= k < |records|
        ensures Survives(records[k])
      {
        assert back[k] == records[k];
      }
    }
  }

  // ---- texts from elsewhere -----------------------------------------------------------------------------

  predicate AreEnds(ends: seq<string>) { forall k :: 0 <= k < |ends| ==> IsEnd(ends[k]) }

  /** Records, each with an end of its own, and a last one without. */
  function Ended(records: seq<seq<string>>, ends: seq<string>, last: seq<string>): string
    requires |ends| == |records|
  {
    if records == [] then Line(last) else Line(records[0]) + (ends[0] + Ended(records[1..], ends[1..], last))
  }

  lemma {:induction false} DropBlankConcat(a: seq<seq<string>>, b: seq<seq<string>>)
    ensures DropBlank(a + b) == DropBlank(a) + DropBlank(b)
    decreases |b|
  {
    if b == [] {
      assert a + b == a;
    } else {
      assert (a + b)[..|a + b| - 1] == a + b[..|b| - 1];
      DropBlankConcat(a, b[..|b| - 1]);
    }
  }

  /** The records read, the one under way included, without the blank ones. */
  function Kept(r: Reader): seq<seq<string>> {
    DropBlank(if r.field != "" || r.record != [] then EndRecord(r).records else r.records)
  }

  lemma DropBlankOne(record: seq<string>)
    ensures DropBlank([record]) == if IsBlank(record) then [] else [record]
  {
    assert [record][..0] == [];
  }

  lemma {:induction false} ScanLast(last: seq<string>, r: Reader)
    requires !r.quoted && r.field == ""
    ensures var done := Scan(Line(last), r);
            && !done.quoted
            && if Line(last) == "" && r.record == [] then done == r
               else EndRecord(done).records == r.records + [r.record + ReadBack(last)] && (done.field != "" || done.record != [])
    decreases |last|
  {
    if |last| <= 1 {
      var field := if last == [] then "" else last[0];
      assert ReadBack(last) == [field] && Line(last) == Field(field) + "";
      ScanField(field, "", r);
    } else {
      LineSplits(last, "");
      assert Line(last) + "" == Line(last) && Line(last[1..]) + "" == Line(last[1..]);
      ScanFieldComma(last[0], Line(last[1..]), r);
      ScanLast(last[1..], r.(record := r.record + [last[0]]));
      HeadAndTail(r.record, last);
    }
  }

  lemma LastIsKept(last: seq<string>, r: Reader)
    requires !r.quoted && r.field == "" && r.record == []
    ensures !Scan(Line(last), r).quoted && Kept(Scan(Line(last), r)) == DropBlank(r.records + [ReadBack(last)])
  {
    ScanLast(last, r);
    assert [] + ReadBack(last) == ReadBack(last);
    if Line(last) == "" {
      assert ReadBack(last) == [""];
      DropBlankConcat(r.records, [[""]]);
      DropBlankOne([""]);
    }
  }

  /** A text that starts with a line feed starts with an empty line. */
  lemma StartsWithLineFeed(records: seq<seq<string>>, ends: seq<string>, last: seq<string>)
    requires |ends| == |records| && AreEnds(ends) && Ended(records, ends, last) != [] && Ended(records, ends, last)[0] == '\n'
    ensures records != [] && ReadBack(records[0]) == [""] && ends[0] == "\n"
    ensures Ended(records, ends, last) == "\n" + Ended(records[1..], ends[1..], last)
  {
  }

  lemma EmptyLineDropped(before: seq<seq<string>>, rest: seq<seq<string>>)
    ensures DropBlank(before + rest) == DropBlank(before + ([[""]] + rest))
  {
    DropBlankConcat(before, rest);
    DropBlankConcat(before, [[""]] + rest);
    DropBlankConcat([[""]], rest);
    DropBlankOne([""]);
  }

  /** The reader after the first record of a text. */
  function Next(records: seq<seq<string>>, r: Reader): Reader
    requires records != []
  {
    Reader(r.records + [ReadBack(records[0])], [], "", false)
  }

  lemma FirstStands(records: seq<seq<string>>, ends: seq<string>, last: seq<string>, r: Reader)
    requires |ends| == |records| > 0 && !r.quoted && r.field == "" && r.record == []
    requires Stands(ends[0], Ended(records[1..], ends[1..], last))
    ensures Scan(Ended(records, ends, last), r) == Scan(Ended(records[1..], ends[1..], last), Next(records, r))
  {
    ScanLine(records[0], ends[0], Ended(records[1..], ends[1..], last), r);
    assert [] + ReadBack(records[0]) == ReadBack(records[0]);
  }

  /** A carriage return and the line feed of an empty line after it are read as one end. */
  lemma FirstMerges(records: seq<seq<string>>, ends: seq<string>, last: seq<string>, r: Reader)
    requires |ends| == |records| > 0 && AreEnds(ends) && !r.quoted && r.field == "" && r.record == []
    requires !Stands(ends[0], Ended(records[1..], ends[1..], last))
    ensures |records| > 1 && ReadBack(records[1]) == [""]
    ensures Scan(Ended(records, ends, last), r) == Scan(Ended(records[2..], ends[2..], last), Next(records, r))
  {
    StartsWithLineFeed(records[1..], ends[1..], last);
    var more := Ended(records[2..], ends[2..], last);
    assert records[1..][1..] == records[2..] && ends[1..][1..] == ends[2..];
    JoinsEnds(more);
    ScanLine(records[0], "\r\n", more, r);
    assert [] + ReadBack(records[0]) == ReadBack(records[0]);
  }

  lemma JoinsEnds(more: string)
    ensures "\r" + ("\n" + more) == "\r\n" + more
  {
  }

  lemma LaterRecords(before: seq<seq<string>>, records: seq<seq<string>>, last: seq<string>)
    requires records != []
    ensures (before + [ReadBack(records[0])]) + ReadBackAll(records[1..] + [last]) == before + ReadBackAll(records + [last])
  {
    assert (records + [last])[1..] == records[1..] + [last];
    ReadBackFirst(before, records + [last]);
  }

  lemma {:induction false} ScanEnded(records: seq<seq<string>>, ends: seq<string>, last: seq<string>, r: Reader)
    requires |ends| == |records| && AreEnds(ends) && !r.quoted && r.field == "" && r.record == []
    ensures var done := Scan(Ended(records, ends, last), r);
            !done.quoted && Kept(done) == DropBlank(r.records + ReadBackAll(records + [last]))
    decreases |records|
  {
    if records == [] {
      LastIsKept(last, r);
      assert ReadBackAll(records + [last]) == [ReadBack(last)];
    } else {
      LaterRecords(r.records, records, last);
      if Stands(ends[0], Ended(records[1..], ends[1..], last)) {
        FirstStands(records, ends, last, r);
        ScanEnded(records[1..], ends[1..], last, Next(records, r));
      } else {
        FirstMerges(records, ends, last, r);
        ScanEnded(records[2..], ends[2..], last, Next(records, r));
        assert records[1..][1..] == records[2..];
        SecondDropped(r.records + [ReadBack(records[0])], records[1..], last);
      }
    }
  }

  lemma SecondDropped(before: seq<seq<string>>, records: seq<seq<string>>, last: seq<string>)
    requires records != [] && ReadBack(records[0]) == [""]
    ensures DropBlank(before + ReadBackAll(records[1..] + [last])) == DropBlank(before + ReadBackAll(records + [last]))
  {
    LaterRecords([], records, last);
    EmptyLineDropped(before, ReadBackAll(records[1..] + [last]));
    assert [] + [[""]] == [[""]] && [] + ReadBackAll(records + [last]) == ReadBackAll(records + [last]);
  }

  /** Whatever ends its records (CR LF, a line feed or a carriage return, in any mixture, the last one possibly nothing),
      a text without a byte-order mark reads as its records but the blank ones. */
  lemma AnyEndsRead(records: seq<seq<string>>, ends: seq<string>, last: seq<string>)
    requires |ends| == |records| && AreEnds(ends)
    requires Ended(records, ends, last) == [] || Ended(records, ends, last)[0] != BOM
    ensures ParsedCsv(Ended(records, ends, last)) == Records(DropBlank(ReadBackAll(records + [last])))
  {
    ScanEnded(records, ends, last, FRESH);
    assert [] + ReadBackAll(records + [last]) == ReadBackAll(records + [last]);
  }

  /** Outside quotes a field is read as it stands, quotes in the middle included. */
  lemma {:induction false} ScanUnquoted(s: string, rest: string, r: Reader)
    requires !r.quoted && ',' !in s && '\r' !in s && '\n' !in s && (s != [] && r.field == "" ==> s[0] != '"')
    ensures Scan(s + rest, r) == Scan(rest, r.(field := r.field + s))
    decreases |s|
  {
    if s == [] {
      assert s + rest == rest && r.field + s == r.field;
    } else {
      assert (s + rest)[1..] == s[1..] + rest;
      ScanUnquoted(s[1..], rest, r.(field := r.field + [s[0]]));
      assert (r.field + [s[0]]) + s[1..] == r.field + s;
    }
  }

  lemma {:induction false} ScanOpen(s: string, r: Reader)
    requires r.quoted && '"' !in s
    ensures Scan(s, r) == r.(field := r.field + s)
    decreases |s|
  {
    if s == [] {
      assert r.field + s == r.field;
    } else {
      ScanOpen(s[1..], r.(field := r.field + [s[0]]));
      assert (r.field + [s[0]]) + s[1..] == r.field + s;
    }
  }

  /** A quote that is opened in front of a field and never closed is an error, whatever was read before. */
  lemma UnclosedIsError(records: seq<seq<string>>, s: string)
    requires '"' !in s && (Lines(records) == [] || Lines(records)[0] != BOM)
    ensures ParsedCsv(Lines(records) + ("\"" + s)) == UnterminatedQuote
  {
    ScanLinesThen(records, "\"" + s, FRESH);
    assert ("\"" + s)[1..] == s;
    var r := Reader([] + ReadBackAll(records), [], "", false);
    ScanOpen(s, r.(quoted := true));
    assert Lines(records) == [] ==> Lines(records) + ("\"" + s) == "\"" + s;
  }

  lemma {:induction false} ScanLinesThen(records: seq<seq<string>>, rest: string, r: Reader)
    requires !r.quoted && r.field == "" && r.record == []
    ensures Scan(Lines(records) + rest, r) == Scan(rest, Reader(r.records + ReadBackAll(records), [], "", false))
    decreases |records|
  {
    if records == [] {
      assert Lines(records) + rest == rest && r.records + ReadBackAll(records) == r.records;
    } else {
      var more := Lines(records[1..]) + rest;
      assert Lines(records) + rest == Line(records[0]) + ("\r\n" + more);
      ScanLine(records[0], "\r\n", more, r);
      assert r.record + ReadBack(records[0]) == ReadBack(records[0]);
      ScanLinesThen(records[1..], rest, Reader(r.records + [ReadBack(records[0])], [], "", false));
      ReadBackFirst(r.records, records);
    }
  }
}
