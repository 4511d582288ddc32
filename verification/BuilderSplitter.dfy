/** Builders and splitter agree: whatever the names and values, a built statement is one statement
    to the splitter. */
module BuilderSplitter {
  import opened Wrappers
  import opened SqlText
  import opened SqlStatements
  import opened SplitterLaws
  import opened SqlBuild
  import opened InertText

  /** Names the agreement covers: every name, except that MySQL backticks mean nothing to the
      splitter, so there a name must be closed. */
  ghost predicate NameFits(engine: Engine, name: string) {
    engine == MySql ==> ClosedName(name)
  }

  ghost predicate TableFits(engine: Engine, t: Table) {
    NameFits(engine, t.name) && forall i :: 0 <= i < |t.columns| ==> NameFits(engine, t.columns[i].name)
  }

  lemma IdentIsInert(engine: Engine, name: string)
    requires NameFits(engine, name)
    ensures Inert(QuoteIdent(engine, name))
  {
    hide Inert, ClosedName;
    if engine == MySql {
      ClosedIdentIsInert(name);
    } else {
      QuotedIsTame(name, '"');
      TameIsInert(QuoteIdent(engine, name));
    }
  }

  lemma LiteralIsInert(engine: Engine, value: Cell)
    ensures Inert(SqlLiteral(engine, value))
  {
    hide Inert, Tame;
    if value.None? {
      BareIsInert("NULL");
    } else {
      QuotedIsTame(if engine == MySql then Doubled(value.value, '\\') else value.value, '\'');
      TameIsInert(SqlLiteral(engine, value));
    }
  }

  lemma {:induction false} NatTextIsBare(n: nat)
    ensures BareText(NatText(n)) && NatText(n) != "" && Digit(NatText(n)[|NatText(n)| - 1])
  {
    if n >= 10 {
      NatTextIsBare(n / 10);
    }
  }

  /** The last character is no white space, so nothing is trimmed behind it. */
  predicate Firm(t: string) {
    t != "" && !IsSpace(t[|t| - 1])
  }

  ghost predicate Piece(t: string) {
    Inert(t) && Firm(t)
  }

  ghost predicate Pieces(parts: seq<string>) {
    forall i :: 0 <= i < |parts| ==> Piece(parts[i])
  }

  lemma PieceAfter(a: string, b: string)
    requires Inert(a) && Piece(b)
    ensures Piece(a + b)
  {
    InertConcat(a, b);
  }

  lemma IdentPiece(engine: Engine, name: string)
    requires NameFits(engine, name)
    ensures Piece(QuoteIdent(engine, name))
  {
    hide Inert;
    IdentIsInert(engine, name);
  }

  lemma ValuePiece(engine: Engine, numeric: bool, value: Cell)
    ensures Piece(SqlValue(engine, numeric, value))
  {
    hide Inert, IsNumber, Trim;
    var r := SqlValue(engine, numeric, value);
    if value.Some? && numeric && Trim(value.value) != "" && IsNumber(Trim(value.value)) {
      NumbersHaveShape(r);
      NumberIsTame(r);
      TameIsInert(r);
    } else {
      LiteralIsInert(engine, value);
      LiteralIsInert(engine, None);
    }
  }

  lemma PieceJoin(parts: seq<string>, sep: string)
    requires parts != [] && Inert(sep) && Pieces(parts)
    ensures Piece(Join(parts, sep))
  {
    hide Inert, Join;
    InertJoin(parts, sep);
    LastOfJoin(parts, sep);
  }

  lemma {:induction false} LastOfJoin(parts: seq<string>, sep: string)
    requires parts != [] && forall i :: 0 <= i < |parts| ==> Firm(parts[i])
    ensures Firm(Join(parts, sep))
  {
    if |parts| > 1 {
      LastOfJoin(parts[1..], sep);
    }
  }

  lemma TableRefPiece(engine: Engine, t: Table)
    requires TableFits(engine, t)
    ensures Piece(TableRef(engine, t))
  {
    hide Inert, QuoteIdent;
    IdentPiece(engine, t.name);
    if engine == Postgres && Qualifier(engine, t).Some? {
      var a := QuoteIdent(engine, t.schema.value);
      IdentPiece(engine, t.schema.value);
      BareIsInert(".");
      InertConcat(a, ".");
      PieceAfter(a + ".", QuoteIdent(engine, t.name));
    }
  }

  lemma PairPiece(engine: Engine, p: Pair)
    requires NameFits(engine, p.name)
    ensures Piece(PairText(engine, p))
  {
    hide Inert, QuoteIdent, SqlValue;
    IdentPiece(engine, p.name);
    BareIsInert(" = ");
    InertConcat(QuoteIdent(engine, p.name), " = ");
    ValuePiece(engine, p.numeric, p.cell);
    PieceAfter(QuoteIdent(engine, p.name) + " = ", SqlValue(engine, p.numeric, p.cell));
  }

  lemma PairsPiece(engine: Engine, ps: seq<Pair>, sep: string)
    requires ps != [] && Inert(sep) && forall i :: 0 <= i < |ps| ==> NameFits(engine, ps[i].name)
    ensures Piece(Join(PairTexts(engine, ps), sep))
  {
    hide Inert, PairText, Join;
    forall i | 0 <= i < |ps| ensures Piece(PairTexts(engine, ps)[i]) {
      PairPiece(engine, ps[i]);
    }
    PieceJoin(PairTexts(engine, ps), sep);
  }

  lemma FilterPiece(engine: Engine, col: Column, raw: string)
    requires NameFits(engine, col.name) && FilterClause(engine, col, raw).Some?
    ensures Piece(FilterClause(engine, col, raw).value)
  {
    hide Inert, QuoteIdent, SqlValue, SqlLiteral, Trim, Lower;
    var q := QuoteIdent(engine, col.name);
    var v := Trim(raw);
    IdentPiece(engine, col.name);
    if Lower(v) == "null" {
      BareIsInert(" IS NULL");
      PieceAfter(q, " IS NULL");
    } else if Lower(v) == "not null" {
      BareIsInert(" IS NOT NULL");
      PieceAfter(q, " IS NOT NULL");
    } else if v[0] == '=' {
      PairPiece(engine, Pair(col.name, col.numeric, Some(v[1..])));
    } else {
      var op := if engine == Postgres then "ILIKE" else "LIKE";
      var lit := SqlLiteral(engine, Some("%" + v + "%"));
      LiteralIsInert(engine, Some("%" + v + "%"));
      LiteralIsFirm(engine, Some("%" + v + "%"));
      BareIsInert("CAST(");
      InertConcat("CAST(", q);
      BareIsInert(" AS ");
      InertConcat("CAST(" + q, " AS ");
      BareIsInert(CastText(engine));
      InertConcat("CAST(" + q + " AS ", CastText(engine));
      BareIsInert(") ");
      InertConcat("CAST(" + q + " AS " + CastText(engine), ") ");
      BareIsInert(op);
      InertConcat("CAST(" + q + " AS " + CastText(engine) + ") ", op);
      BareIsInert(" ");
      InertConcat("CAST(" + q + " AS " + CastText(engine) + ") " + op, " ");
      PieceAfter("CAST(" + q + " AS " + CastText(engine) + ") " + op + " ", lit);
    }
  }

  lemma LiteralIsFirm(engine: Engine, value: Cell)
    ensures Firm(SqlLiteral(engine, value))
  {
  }

  lemma {:induction false} ClausePieces(engine: Engine, columns: seq<Column>, filters: map<string, string>)
    requires forall i :: 0 <= i < |columns| ==> NameFits(engine, columns[i].name)
    ensures Pieces(FilterClauses(engine, columns, filters))
  {
    hide Piece, FilterClause;
    if columns != [] {
      ClausePieces(engine, columns[..|columns| - 1], filters);
      var col := columns[|columns| - 1];
      var c := FilterClause(engine, col, FilterText(filters, col.name));
      if c.Some? {
        FilterPiece(engine, col, FilterText(filters, col.name));
        var rest := FilterClauses(engine, columns[..|columns| - 1], filters);
        assert FilterClauses(engine, columns, filters) == rest + [c.value];
      }
    }
  }

  /** A statement's tail: its table, and its conditions if it has any. */
  lemma FilteredPiece(engine: Engine, t: Table, filters: map<string, string>, head: string)
    requires TableFits(engine, t) && Inert(head)
    ensures var where := Where(engine, t.columns, filters);
            Piece(head + TableRef(engine, t) + (if where != "" then " WHERE " + where else ""))
  {
    hide Inert, TableRef, FilterClauses, Join, Pieces;
    var where := Where(engine, t.columns, filters);
    var from := head + TableRef(engine, t);
    TableRefPiece(engine, t);
    PieceAfter(head, TableRef(engine, t));
    if where == "" {
      assert from + "" == from;
    } else {
      var cs := FilterClauses(engine, t.columns, filters);
      ClausePieces(engine, t.columns, filters);
      JoinOfNone(" AND ");
      PieceJoinWhere(cs);
      BareIsInert(" WHERE ");
      PieceAfter(" WHERE ", where);
      PieceAfter(from, " WHERE " + where);
    }
  }

  lemma JoinOfNone(sep: string)
    ensures Join([], sep) == ""
  {
  }

  lemma PieceJoinWhere(cs: seq<string>)
    requires cs != [] && Pieces(cs)
    ensures Piece(Join(cs, " AND "))
  {
    hide Inert, Join, Pieces, Piece;
    BareIsInert(" AND ");
    PieceJoin(cs, " AND ");
  }

  lemma {:induction false} PkColumnsAreColumns(columns: seq<Column>, c: Column)
    requires c in PkColumns(columns)
    ensures c in columns
  {
    if columns != [] {
      if c in PkColumns(columns[1..]) {
        PkColumnsAreColumns(columns[1..], c);
      }
    }
  }

  lemma QuotedPieces(engine: Engine, columns: seq<Column>)
    requires forall c :: c in columns ==> NameFits(engine, c.name)
    ensures Pieces(Idents(engine, columns))
  {
    hide Piece, QuoteIdent, NameFits;
    forall i | 0 <= i < |columns| ensures Piece(Idents(engine, columns)[i]) {
      assert columns[i] in columns;
      IdentPiece(engine, columns[i].name);
    }
  }

  lemma OrderPiece(engine: Engine, t: Table, sort: Option<Sort>)
    requires TableFits(engine, t) && (sort.Some? ==> NameFits(engine, sort.value.col))
    ensures BuildOrderBy(engine, t, sort) == "" || Piece(BuildOrderBy(engine, t, sort))
  {
    hide Piece, Inert, QuoteIdent, NameFits, Join, Without, PkColumns;
    forall c | c in PkColumns(t.columns) ensures NameFits(engine, c.name) {
      PkColumnsAreColumns(t.columns, c);
    }
    match sort
    case None =>
      var cols := DefaultOrder(t);
      if cols != [] {
        QuotedPieces(engine, cols);
        OrderByPieces(Idents(engine, cols));
      }
    case Some(s) =>
      var dir := if s.desc then "DESC" else "ASC";
      SortKeyPiece(engine, s);
      var rest := Without(PkColumns(t.columns), s.col);
      forall c | c in rest ensures NameFits(engine, c.name) {
        WithoutMeaning(PkColumns(t.columns), s.col, c);
      }
      QuotedPieces(engine, rest);
      OrderByPieces([QuoteIdent(engine, s.col) + " " + dir] + Idents(engine, rest));
  }

  lemma SortKeyPiece(engine: Engine, s: Sort)
    requires NameFits(engine, s.col)
    ensures Piece(QuoteIdent(engine, s.col) + " " + (if s.desc then "DESC" else "ASC"))
  {
    hide Inert, QuoteIdent;
    var dir := if s.desc then "DESC" else "ASC";
    IdentPiece(engine, s.col);
    BareIsInert(" ");
    InertConcat(QuoteIdent(engine, s.col), " ");
    BareIsInert(dir);
    PieceAfter(QuoteIdent(engine, s.col) + " ", dir);
  }

  lemma OrderByPieces(parts: seq<string>)
    requires parts != [] && Pieces(parts)
    ensures Piece("ORDER BY " + Join(parts, ", "))
  {
    hide Join, Inert, Pieces, Firm;
    BareIsInert(", ");
    PieceJoin(parts, ", ");
    BareIsInert("ORDER BY ");
    PieceAfter("ORDER BY ", Join(parts, ", "));
  }

  lemma WindowPiece(head: string, limit: nat, offset: nat)
    requires Inert(head)
    ensures Piece(head + " LIMIT " + NatText(limit) + " OFFSET " + NatText(offset))
  {
    hide Inert, NatText;
    BareIsInert(" LIMIT ");
    InertConcat(head, " LIMIT ");
    NatTextIsBare(limit);
    BareIsInert(NatText(limit));
    InertConcat(head + " LIMIT ", NatText(limit));
    BareIsInert(" OFFSET ");
    InertConcat(head + " LIMIT " + NatText(limit), " OFFSET ");
    NatTextIsBare(offset);
    BareIsInert(NatText(offset));
    PieceAfter(head + " LIMIT " + NatText(limit) + " OFFSET ", NatText(offset));
  }

  // ---- One statement ----------------------------------------------------------------------------------------------

  lemma {:induction false} KeywordSurvives(s: string)
    requires s != "" && !IsSpace(s[0]) && s[0] != '/' && s[0] != '-'
    ensures Effective(s)
  {
    var b := StripBlocks(s);
    assert b != "" && b[0] == s[0];
    var l := StripLines(b);
    assert l != "" && l[0] == s[0];
    var before, after := TrimMeaning(l);
    assert before + "" + after == before + after;
    assert before + after == "" || IsSpace((before + after)[0]);
  }

  lemma OnePiece(s: string)
    requires Piece(s) && 'A' <= s[0] <= 'Z'
    ensures Split(s) == [s]
  {
    hide Split, Effective, Inert, NoCut;
    InertHoldsNoCut(s);
    KeywordSurvives(s);
    WholeSplitsToItself(s);
  }

  lemma CountQueryIsOneStatement(engine: Engine, t: Table, filters: map<string, string>)
    requires TableFits(engine, t)
    ensures var q := BuildCountQuery(engine, t, filters); Split(q) == [q]
  {
    hide Inert, Split, TableRef, Where;
    var head := "SELECT COUNT(*) AS n FROM ";
    BareIsInert(head);
    FilteredPiece(engine, t, filters, head);
    OnePiece(BuildCountQuery(engine, t, filters));
  }

  lemma PageQueryIsOneStatement(engine: Engine, t: Table, filters: map<string, string>, sort: Option<Sort>,
                                limit: int, offset: int)
    requires TableFits(engine, t) && (sort.Some? ==> NameFits(engine, sort.value.col))
    ensures var q := BuildPageQuery(engine, t, filters, sort, limit, offset); Split(q) == [q]
  {
    hide Inert, Split, TableRef, Where, BuildOrderBy, NatText;
    BareIsInert("SELECT * FROM ");
    FilteredPiece(engine, t, filters, "SELECT * FROM ");
    var where := Where(engine, t.columns, filters);
    var from := "SELECT * FROM " + TableRef(engine, t) + (if where != "" then " WHERE " + where else "");
    var order := BuildOrderBy(engine, t, sort);
    OrderPiece(engine, t, sort);
    if order != "" {
      BareIsInert(" ");
      InertConcat(" ", order);
      InertConcat(from, " " + order);
    }
    var ordered := from + (if order != "" then " " + order else "");
    assert order == "" ==> ordered == from;
    WindowPiece(ordered, NonNegative(limit), NonNegative(offset));
    OnePiece(BuildPageQuery(engine, t, filters, sort, limit, offset));
  }

  lemma {:induction false} PresentFits(engine: Engine, t: Table, values: map<string, Cell>)
    requires TableFits(engine, t)
    ensures forall i :: 0 <= i < |SetPairs(t, values)| ==> NameFits(engine, SetPairs(t, values)[i].name)
  {
    hide NameFits;
    var cols := Present(t.columns, values);
    forall i | 0 <= i < |cols| ensures NameFits(engine, SetPairs(t, values)[i].name) {
      assert cols[i] in t.columns;
    }
  }

  lemma InsertIsOneStatement(engine: Engine, t: Table, values: map<string, Cell>)
    requires TableFits(engine, t) && BuildInsert(engine, t, values).Ok?
    ensures var q := BuildInsert(engine, t, values).value; Split(q) == [q]
  {
    hide Inert, Split, TableRef, Join, QuoteIdent, SqlValue, SetPairs, NameFits;
    var ps := SetPairs(t, values);
    PresentFits(engine, t, values);
    forall i | 0 <= i < |ps| ensures Piece(Names(engine, ps)[i]) && Piece(Values(engine, ps)[i]) {
      IdentPiece(engine, ps[i].name);
      ValuePiece(engine, ps[i].numeric, ps[i].cell);
    }
    BareIsInert(", ");
    PieceJoin(Names(engine, ps), ", ");
    PieceJoin(Values(engine, ps), ", ");
    InsertAssembled(TableRef(engine, t), Join(Names(engine, ps), ", "), Join(Values(engine, ps), ", ")) by {
      TableRefPiece(engine, t);
    }
  }

  lemma InsertAssembled(table: string, names: string, values: string)
    requires Inert(table) && Inert(names) && Inert(values)
    ensures var q := "INSERT INTO " + table + " (" + names + ") VALUES (" + values + ")"; Split(q) == [q]
  {
    hide Inert, Split;
    BareIsInert("INSERT INTO ");
    InertConcat("INSERT INTO ", table);
    BareIsInert(" (");
    InertConcat("INSERT INTO " + table, " (");
    InertConcat("INSERT INTO " + table + " (", names);
    BareIsInert(") VALUES (");
    InertConcat("INSERT INTO " + table + " (" + names, ") VALUES (");
    InertConcat("INSERT INTO " + table + " (" + names + ") VALUES (", values);
    BareIsInert(")");
    PieceAfter("INSERT INTO " + table + " (" + names + ") VALUES (" + values, ")");
    OnePiece("INSERT INTO " + table + " (" + names + ") VALUES (" + values + ")");
  }

  lemma UpdateIsOneStatement(engine: Engine, t: Table, keys: seq<(string, Cell)>, values: map<string, Cell>)
    requires TableFits(engine, t) && (forall i :: 0 <= i < |keys| ==> NameFits(engine, keys[i].0))
    requires BuildUpdate(engine, t, keys, values).Ok?
    ensures var q := BuildUpdate(engine, t, keys, values).value; Split(q) == [q]
  {
    hide Inert, Split, TableRef, Join, PairTexts, SetPairs, NameFits;
    var edits, where := SetPairs(t, values), KeyPairs(t, keys);
    PresentFits(engine, t, values);
    BareIsInert(", ");
    BareIsInert(" AND ");
    PairsPiece(engine, edits, ", ");
    PairsPiece(engine, where, " AND ");
    TableRefPiece(engine, t);
    UpdateAssembled(TableRef(engine, t), Join(PairTexts(engine, edits), ", "), Join(PairTexts(engine, where), " AND "));
  }

  lemma UpdateAssembled(table: string, edits: string, where: string)
    requires Inert(table) && Inert(edits) && Piece(where)
    ensures var q := "UPDATE " + table + " SET " + edits + " WHERE " + where; Split(q) == [q]
  {
    hide Inert, Split;
    BareIsInert("UPDATE ");
    InertConcat("UPDATE ", table);
    BareIsInert(" SET ");
    InertConcat("UPDATE " + table, " SET ");
    InertConcat("UPDATE " + table + " SET ", edits);
    BareIsInert(" WHERE ");
    InertConcat("UPDATE " + table + " SET " + edits, " WHERE ");
    PieceAfter("UPDATE " + table + " SET " + edits + " WHERE ", where);
    OnePiece("UPDATE " + table + " SET " + edits + " WHERE " + where);
  }

  lemma DeleteIsOneStatement(engine: Engine, t: Table, keys: seq<(string, Cell)>)
    requires TableFits(engine, t) && (forall i :: 0 <= i < |keys| ==> NameFits(engine, keys[i].0))
    requires BuildDelete(engine, t, keys).Ok?
    ensures var q := BuildDelete(engine, t, keys).value; Split(q) == [q]
  {
    hide Inert, Split, TableRef, Join, PairTexts, NameFits;
    var where := KeyPairs(t, keys);
    BareIsInert(" AND ");
    PairsPiece(engine, where, " AND ");
    TableRefPiece(engine, t);
    BareIsInert("DELETE FROM ");
    InertConcat("DELETE FROM ", TableRef(engine, t));
    BareIsInert(" WHERE ");
    InertConcat("DELETE FROM " + TableRef(engine, t), " WHERE ");
    PieceAfter("DELETE FROM " + TableRef(engine, t) + " WHERE ", Join(PairTexts(engine, where), " AND "));
    OnePiece(BuildDelete(engine, t, keys).value);
  }
}
