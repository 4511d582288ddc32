/** CSV export, and a parser written from section 2 of RFC 4180 that reads it back. */
module Csv {
  import opened Wrappers
  import opened SqlText
  import opened SqlBuild
  import opened SqlReadBack

  predicate NeedsQuotes(s: string) {
    exists i :: 0 <= i < |s| && (s[i] == ',' || s[i] == '"' || s[i] == '\n' || s[i] == '\r')
  }

  function Escape(s: string): string {
    if NeedsQuotes(s) then "\"" + Doubled(s, '"') + "\"" else s
  }

  /** A field's text; NULL is the empty field. */
  function CellText(c: Cell): string {
    match c
    case None => ""
    case Some(s) => s
  }

  function Texts(row: seq<Cell>): seq<string> {
    seq(|row|, i requires 0 <= i < |row| => CellText(row[i]))
  }

  function Line(fields: seq<string>): string {
    Join(seq(|fields|, i requires 0 <= i < |fields| => Escape(fields[i])), ",")
  }

  function Lines(rows: seq<seq<string>>): seq<string> {
    seq(|rows|, i requires 0 <= i < |rows| => Line(rows[i]))
  }

  function AllTexts(rows: seq<seq<Cell>>): seq<seq<string>> {
    seq(|rows|, i requires 0 <= i < |rows| => Texts(rows[i]))
  }

  /** The export: the header line, then the rows, unless their text is empty. */
  function ToCsv(columns: seq<string>, rows: seq<seq<Cell>>): string {
    var head := Line(columns);
    var body := Join(Lines(AllTexts(rows)), "\n");
    if body != "" then head + "\n" + body else head
  }

  // ---- RFC 4180 ---------------------------------------------------------------------------------------------

  datatype Field = Field(text: string, rest: string)

  /** The length of a line break at the front: CRLF, or a bare LF. */
  function BreakAt(s: string): nat {
    if s != "" && s[0] == '\n' then 1 else if |s| > 1 && s[0] == '\r' && s[1] == '\n' then 2 else 0
  }

  function BareField(s: string): (f: Field)
    ensures |f.rest| <= |s|
  {
    if s == "" || s[0] == ',' || BreakAt(s) > 0 then Field("", s)
    else
      var f := BareField(s[1..]);
      Field([s[0]] + f.text, f.rest)
  }

  /** From behind the opening quote to behind the closing one; a doubled quote stands for one. */
  function QuotedField(s: string): (r: Option<Field>)
    ensures r.Some? ==> |r.value.rest| < |s|
  {
    match ReadQuoted(s, '"', false)
    case Some(Read(text, rest)) => Some(Field(text, rest))
    case None => None
  }

  function ReadField(s: string): (r: Option<Field>)
    ensures r.Some? ==> |r.value.rest| <= |s|
  {
    if s != "" && s[0] == '"' then QuotedField(s[1..]) else Some(BareField(s))
  }

  /** The records of a text, given the fields already read of the first one. */
  function Records(s: string, fields: seq<string>): Option<seq<seq<string>>>
    decreases |s|
  {
    match ReadField(s)
    case None => None
    case Some(Field(text, rest)) =>
      if rest == "" then Some([fields + [text]])
      else if rest[0] == ',' then Records(rest[1..], fields + [text])
      else if BreakAt(rest) > 0 then
        (match Records(rest[BreakAt(rest)..], [])
         case Some(more) => Some([fields + [text]] + more)
         case None => None)
      else None
  }

  /** Rule 2 of the section: the last record may end in a line break, which then adds no record. */
  function DropEndingBreak(records: seq<seq<string>>): seq<seq<string>> {
    if |records| > 1 && records[|records| - 1] == [""] then records[..|records| - 1] else records
  }

  // ---- Reading back ---------------------------------------------------------------------------------------------

  predicate FieldEnds(rest: string) {
    rest == "" || rest[0] == ',' || rest[0] == '\n'
  }

  lemma {:induction false} BareReadsBack(v: string, rest: string)
    requires !NeedsQuotes(v) && FieldEnds(rest)
    ensures BareField(v + rest) == Field(v, rest)
    decreases |v|
  {
    if v == "" {
      assert v + rest == rest;
    } else {
      assert v[0] != ',' && v[0] != '\n' && v[0] != '\r';
      assert (v + rest)[1..] == v[1..] + rest;
      assert forall i :: 0 <= i < |v[1..]| ==> v[1..][i] == v[i + 1];
      BareReadsBack(v[1..], rest);
      assert [v[0]] + v[1..] == v;
    }
  }

  lemma QuotedReadsBack(v: string, rest: string)
    requires rest == "" || rest[0] != '"'
    ensures QuotedField(Doubled(v, '"') + "\"" + rest) == Some(Field(v, rest))
  {
    hide ReadQuoted, Doubled;
    DoubledReadsBack(v, '"', rest);
  }

  lemma FieldReadsBack(v: string, rest: string)
    requires FieldEnds(rest)
    ensures ReadField(Escape(v) + rest) == Some(Field(v, rest))
  {
    hide QuotedField, BareField, Doubled;
    var s := Escape(v) + rest;
    if NeedsQuotes(v) {
      assert s == "\"" + (Doubled(v, '"') + "\"" + rest);
      assert s[1..] == Doubled(v, '"') + "\"" + rest;
      QuotedReadsBack(v, rest);
    } else {
      assert s != "" ==> s[0] != '"' by {
        if v != "" {
          assert s[0] == v[0];
        }
      }
      BareReadsBack(v, rest);
    }
  }

  predicate LineEnds(rest: string) {
    rest == "" || rest[0] == '\n'
  }

  function ThenMore(record: seq<string>, rest: string): Option<seq<seq<string>>> {
    if rest == "" then Some([record])
    else (match Records(rest[1..], [])
          case Some(more) => Some([record] + more)
          case None => None)
  }

  lemma {:induction false} LineReadsBack(done: seq<string>, fields: seq<string>, rest: string)
    requires fields != [] && LineEnds(rest)
    ensures Records(Line(fields) + rest, done) == ThenMore(done + fields, rest)
    decreases |fields|
  {
    hide ReadField, Escape;
    var s := Line(fields) + rest;
    if |fields| == 1 {
      FieldReadsBack(fields[0], rest);
      assert s == Escape(fields[0]) + rest;
      assert done + [fields[0]] == done + fields;
    } else {
      var tail := Line(fields[1..]) + rest;
      FirstField(fields);
      assert s == Escape(fields[0]) + ("," + tail);
      FieldReadsBack(fields[0], "," + tail);
      assert ("," + tail)[1..] == tail;
      LineReadsBack(done + [fields[0]], fields[1..], rest);
      assert done + [fields[0]] + fields[1..] == done + fields;
    }
  }

  lemma FirstField(fields: seq<string>)
    requires |fields| > 1
    ensures Line(fields) == Escape(fields[0]) + "," + Line(fields[1..])
  {
    hide Escape;
    var texts := seq(|fields|, i requires 0 <= i < |fields| => Escape(fields[i]));
    var later := fields[1..];
    assert texts[1..] == seq(|later|, i requires 0 <= i < |later| => Escape(later[i]));
  }

  lemma {:induction false} LinesReadBack(rows: seq<seq<string>>)
    requires rows != [] && forall i :: 0 <= i < |rows| ==> rows[i] != []
    ensures Records(Join(Lines(rows), "\n"), []) == Some(rows)
    decreases |rows|
  {
    hide Line, Records;
    if |rows| == 1 {
      LineReadsBack([], rows[0], "");
      assert Join(Lines(rows), "\n") == Line(rows[0]) + "";
      assert [] + rows[0] == rows[0] && rows == [rows[0]];
    } else {
      var tail := Join(Lines(rows[1..]), "\n");
      assert Lines(rows)[1..] == Lines(rows[1..]);
      assert Join(Lines(rows), "\n") == Line(rows[0]) + ("\n" + tail);
      LineReadsBack([], rows[0], "\n" + tail);
      LinesReadBack(rows[1..]);
      assert ("\n" + tail)[1..] == tail;
      assert [] + rows[0] == rows[0] && [rows[0]] + rows[1..] == rows;
    }
  }

  /** The body is the empty text exactly for no rows and for one row of one empty cell. */
  lemma EmptyBody(rows: seq<seq<string>>)
    requires forall i :: 0 <= i < |rows| ==> rows[i] != []
    ensures Join(Lines(rows), "\n") == "" <==> rows == [] || rows == [[""]]
  {
    if |rows| == 1 {
      var row := rows[0];
      if |row| > 1 {
        FirstField(row);
      } else {
        assert row == [row[0]];
        assert Line(row) == Escape(row[0]);
      }
    }
  }

  /** The header and every cell text come back exactly when the rows are not the single empty cell,
      whose export is the export of no rows. */
  lemma CsvReadsBack(columns: seq<string>, rows: seq<seq<Cell>>)
    requires columns != [] && forall i :: 0 <= i < |rows| ==> rows[i] != []
    ensures Records(ToCsv(columns, rows), []) == Some([columns] + AllTexts(rows)) <==> AllTexts(rows) != [[""]]
    ensures AllTexts(rows) == [[""]] ==> Records(ToCsv(columns, rows), []) == Some([columns])
  {
    hide Records, Line, Join;
    var texts := AllTexts(rows);
    EmptyBody(texts);
    LinesReadBack([columns]);
    LinesOf(columns, texts);
    if texts == [] || texts == [[""]] {
      assert |[columns] + texts| == 1 + |texts|;
      assert texts == [] ==> [columns] + texts == [columns];
    } else {
      LinesReadBack([columns] + texts);
    }
  }

  lemma LinesOf(columns: seq<string>, texts: seq<seq<string>>)
    ensures Join(Lines([columns]), "\n") == Line(columns)
    ensures texts != [] ==> Join(Lines([columns] + texts), "\n") == Line(columns) + "\n" + Join(Lines(texts), "\n")
  {
    hide Line;
    assert Lines([columns] + texts)[1..] == Lines(texts);
  }

  /** A parser that takes an ending line break as no record also needs the last row not to be a
      single empty cell. */
  lemma CsvReadsBackWithoutEndingBreak(columns: seq<string>, rows: seq<seq<Cell>>)
    requires columns != [] && forall i :: 0 <= i < |rows| ==> rows[i] != []
    ensures var read := Records(ToCsv(columns, rows), []);
            read.Some? && (DropEndingBreak(read.value) == [columns] + AllTexts(rows)
                           <==> rows == [] || AllTexts(rows)[|rows| - 1] != [""])
  {
    hide Records, ToCsv, Texts;
    CsvReadsBack(columns, rows);
    var texts := AllTexts(rows);
    assert |texts| == |rows|;
    if texts == [[""]] {
      assert |DropEndingBreak([columns])| == 1;
    } else {
      var all := [columns] + texts;
      assert rows != [] ==> all[|all| - 1] == texts[|rows| - 1];
    }
  }
}
