/** The SQL builders of the data grid: identifier and literal quoting, filters, ordering, paging
    and row edits. Column types enter only as "is a numeric type". */
module SqlBuild {
  import opened Wrappers
  import opened SqlText

  datatype Engine = Postgres | MySql | Sqlite | MongoDb

  datatype Column = Column(name: string, numeric: bool, pk: bool)

  datatype Table = Table(schema: Option<string>, name: string, columns: seq<Column>)

  datatype Sort = Sort(col: string, desc: bool)

  /** A cell of the editor: NULL or text. */
  type Cell = Option<string>

  datatype BuildError = NoColumns | NoPrimaryKey | NoChanges

  // ---- Quoting -------------------------------------------------------------------------------------

  function IdentQuote(engine: Engine): char {
    if engine == MySql then '`' else '"'
  }

  function QuoteIdent(engine: Engine, name: string): string {
    var q := IdentQuote(engine);
    [q] + Doubled(name, q) + [q]
  }

  /** The schema a reference is qualified with: only Postgres, and only a schema that is not empty. */
  function Qualifier(engine: Engine, t: Table): Option<string> {
    if engine == Postgres && t.schema.Some? && t.schema.value != "" then t.schema else None
  }

  function TableRef(engine: Engine, t: Table): string {
    match Qualifier(engine, t)
    case Some(schema) => QuoteIdent(engine, schema) + "." + QuoteIdent(engine, t.name)
    case None => QuoteIdent(engine, t.name)
  }

  function SqlLiteral(engine: Engine, value: Cell): string {
    match value
    case None => "NULL"
    case Some(v) =>
      var s := if engine == MySql then Doubled(v, '\\') else v;
      "'" + Doubled(s, '\'') + "'"
  }

  // ---- Numbers --------------------------------------------------------------------------------------

  predicate Digit(c: char) {
    '0' <= c <= '9'
  }

  function DigitsEnd(s: string, i: nat): (j: nat)
    requires i <= |s|
    ensures i <= j <= |s| && forall k :: i <= k < j ==> Digit(s[k])
    decreases |s| - i
  {
    if i < |s| && Digit(s[i]) then DigitsEnd(s, i + 1) else i
  }

  /** An optional sign, digits, an optional fraction, an optional exponent, and nothing else. */
  predicate IsNumber(s: string) {
    var i := if s != "" && s[0] == '-' then 1 else 0;
    var j := DigitsEnd(s, i);
    j > i && HasFractionAndExponent(s, j)
  }

  predicate HasFractionAndExponent(s: string, j: nat)
    requires j <= |s|
  {
    var k := if j < |s| && s[j] == '.' && DigitsEnd(s, j + 1) > j + 1 then DigitsEnd(s, j + 1) else j;
    k == |s| || HasExponent(s, k)
  }

  predicate HasExponent(s: string, k: nat)
    requires k < |s|
  {
    && (s[k] == 'e' || s[k] == 'E')
    && var m := if k + 1 < |s| && (s[k + 1] == '+' || s[k + 1] == '-') then k + 2 else k + 1;
       DigitsEnd(s, m) > m && DigitsEnd(s, m) == |s|
  }

  function NatText(n: nat): string {
    if n < 10 then [('0' as int + n) as char] else NatText(n / 10) + [('0' as int + n % 10) as char]
  }

  /** The literal for a column: NULL, a bare number for a numeric column, or a quoted text. */
  function SqlValue(engine: Engine, numeric: bool, value: Cell): string {
    if value.None? then "NULL"
    else if numeric && Trim(value.value) == "" then "NULL"
    else if numeric && IsNumber(Trim(value.value)) then Trim(value.value)
    else SqlLiteral(engine, value)
  }

  // ---- Filters ------------------------------------------------------------------------------------------

  function LowerChar(c: char): char {
    if 'A' <= c <= 'Z' then (c as int + 32) as char else c
  }

  function Lower(s: string): string {
    seq(|s|, i requires 0 <= i < |s| => LowerChar(s[i]))
  }

  function CastText(engine: Engine): string {
    if engine == MySql then "CHAR" else "TEXT"
  }

  /** One column's filter box as a condition, or nothing when the box is blank. */
  function FilterClause(engine: Engine, col: Column, raw: string): Option<string> {
    var v := Trim(raw);
    var q := QuoteIdent(engine, col.name);
    if v == "" then None
    else if Lower(v) == "null" then Some(q + " IS NULL")
    else if Lower(v) == "not null" then Some(q + " IS NOT NULL")
    else if v[0] == '=' then Some(q + " = " + SqlValue(engine, col.numeric, Some(v[1..])))
    else Some("CAST(" + q + " AS " + CastText(engine) + ") "
              + (if engine == Postgres then "ILIKE" else "LIKE") + " "
              + SqlLiteral(engine, Some("%" + v + "%")))
  }

  function FilterText(filters: map<string, string>, name: string): string {
    if name in filters then filters[name] else ""
  }

  function FilterClauses(engine: Engine, columns: seq<Column>, filters: map<string, string>): seq<string> {
    if columns == [] then []
    else
      var rest := FilterClauses(engine, columns[..|columns| - 1], filters);
      var col := columns[|columns| - 1];
      match FilterClause(engine, col, FilterText(filters, col.name))
      case Some(c) => rest + [c]
      case None => rest
  }

  function Where(engine: Engine, columns: seq<Column>, filters: map<string, string>): string {
    Join(FilterClauses(engine, columns, filters), " AND ")
  }

  /** The filter loop: one condition pushed per column whose box is not blank. */
  method BuildWhere(engine: Engine, columns: seq<Column>, filters: map<string, string>)
    returns (where: string)
    ensures where == Where(engine, columns, filters)
  {
    var parts: seq<string> := [];
    for i := 0 to |columns|
      invariant parts == FilterClauses(engine, columns[..i], filters)
    {
      var col := columns[i];
      assert columns[..i + 1][..i] == columns[..i];
      var c := FilterClause(engine, col, FilterText(filters, col.name));
      if c.Some? {
        parts := parts + [c.value];
      }
    }
    assert columns[..|columns|] == columns;
    where := Join(parts, " AND ");
  }

  // ---- Ordering -------------------------------------------------------------------------------------------

  function PkColumns(columns: seq<Column>): seq<Column> {
    if columns == [] then []
    else (if columns[0].pk then [columns[0]] else []) + PkColumns(columns[1..])
  }

  function Without(columns: seq<Column>, name: string): seq<Column> {
    if columns == [] then []
    else (if columns[0].name != name then [columns[0]] else []) + Without(columns[1..], name)
  }

  lemma {:induction false} WithoutMeaning(columns: seq<Column>, name: string, c: Column)
    ensures c in Without(columns, name) <==> c in columns && c.name != name
  {
    if columns != [] {
      WithoutMeaning(columns[1..], name, c);
    }
  }

  function Idents(engine: Engine, columns: seq<Column>): seq<string> {
    seq(|columns|, i requires 0 <= i < |columns| => QuoteIdent(engine, columns[i].name))
  }

  function DefaultOrder(t: Table): seq<Column> {
    var pk := PkColumns(t.columns);
    if pk != [] then pk else if t.columns != [] then t.columns[..1] else []
  }

  function BuildOrderBy(engine: Engine, t: Table, sort: Option<Sort>): string {
    match sort
    case Some(s) =>
      var head := QuoteIdent(engine, s.col) + " " + (if s.desc then "DESC" else "ASC");
      "ORDER BY " + Join([head] + Idents(engine, Without(PkColumns(t.columns), s.col)), ", ")
    case None =>
      if DefaultOrder(t) == [] then "" else "ORDER BY " + Join(Idents(engine, DefaultOrder(t)), ", ")
  }

  // ---- Statements ------------------------------------------------------------------------------------------

  function NonNegative(n: int): nat {
    if n < 0 then 0 else n
  }

  function BuildPageQuery(engine: Engine, t: Table, filters: map<string, string>, sort: Option<Sort>,
                          limit: int, offset: int): string {
    var where := Where(engine, t.columns, filters);
    var order := BuildOrderBy(engine, t, sort);
    "SELECT * FROM " + TableRef(engine, t)
    + (if where != "" then " WHERE " + where else "")
    + (if order != "" then " " + order else "")
    + " LIMIT " + NatText(NonNegative(limit)) + " OFFSET " + NatText(NonNegative(offset))
  }

  function BuildCountQuery(engine: Engine, t: Table, filters: map<string, string>): string {
    var where := Where(engine, t.columns, filters);
    "SELECT COUNT(*) AS n FROM " + TableRef(engine, t) + (if where != "" then " WHERE " + where else "")
  }

  /** The table's columns for which the record holds a value, in column order. */
  function Present(columns: seq<Column>, values: map<string, Cell>): (r: seq<Column>)
    ensures forall i :: 0 <= i < |r| ==> r[i] in columns && r[i].name in values
  {
    if columns == [] then []
    else (if columns[0].name in values then [columns[0]] else []) + Present(columns[1..], values)
  }

  /** The type of a named column; a name the table does not have is treated as text. */
  function NumericColumn(columns: seq<Column>, name: string): bool {
    if columns == [] then false
    else if columns[0].name == name then columns[0].numeric
    else NumericColumn(columns[1..], name)
  }

  /** A column name with the cell to write or compare and whether the column is numeric. */
  datatype Pair = Pair(name: string, numeric: bool, cell: Cell)

  function PairText(engine: Engine, p: Pair): string {
    QuoteIdent(engine, p.name) + " = " + SqlValue(engine, p.numeric, p.cell)
  }

  function PairTexts(engine: Engine, ps: seq<Pair>): seq<string> {
    seq(|ps|, i requires 0 <= i < |ps| => PairText(engine, ps[i]))
  }

  function SetPairs(t: Table, values: map<string, Cell>): seq<Pair> {
    var cols := Present(t.columns, values);
    seq(|cols|, i requires 0 <= i < |cols| => Pair(cols[i].name, cols[i].numeric, values[cols[i].name]))
  }

  /** The key record in its own order. */
  function KeyPairs(t: Table, keys: seq<(string, Cell)>): seq<Pair> {
    seq(|keys|, i requires 0 <= i < |keys| => Pair(keys[i].0, NumericColumn(t.columns, keys[i].0), keys[i].1))
  }

  function Names(engine: Engine, ps: seq<Pair>): seq<string> {
    seq(|ps|, i requires 0 <= i < |ps| => QuoteIdent(engine, ps[i].name))
  }

  function Values(engine: Engine, ps: seq<Pair>): seq<string> {
    seq(|ps|, i requires 0 <= i < |ps| => SqlValue(engine, ps[i].numeric, ps[i].cell))
  }

  function BuildInsert(engine: Engine, t: Table, values: map<string, Cell>): Result<string, BuildError> {
    var ps := SetPairs(t, values);
    if ps == [] then Err(NoColumns)
    else Ok("INSERT INTO " + TableRef(engine, t) + " (" + Join(Names(engine, ps), ", ") + ") VALUES ("
            + Join(Values(engine, ps), ", ") + ")")
  }

  function BuildUpdate(engine: Engine, t: Table, keys: seq<(string, Cell)>, values: map<string, Cell>)
    : Result<string, BuildError>
  {
    if keys == [] then Err(NoPrimaryKey)
    else if SetPairs(t, values) == [] then Err(NoChanges)
    else Ok("UPDATE " + TableRef(engine, t) + " SET " + Join(PairTexts(engine, SetPairs(t, values)), ", ")
            + " WHERE " + Join(PairTexts(engine, KeyPairs(t, keys)), " AND "))
  }

  function BuildDelete(engine: Engine, t: Table, keys: seq<(string, Cell)>): Result<string, BuildError> {
    if keys == [] then Err(NoPrimaryKey)
    else Ok("DELETE FROM " + TableRef(engine, t) + " WHERE "
            + Join(PairTexts(engine, KeyPairs(t, keys)), " AND "))
  }
}
