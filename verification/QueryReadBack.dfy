/** Page and count queries read back: the table, the conditions the filter boxes stand for, the
    ordering keys, and the window. */
module QueryReadBack {
  import opened Wrappers
  import opened SqlText
  import opened SqlBuild
  import opened SqlReadBack
  import opened Paging

  /** A condition on one column, as the database reads it. */
  datatype Condition =
    | IsNull(col: string)
    | IsNotNull(col: string)
    | Equals(col: string, value: Token)
    | Like(col: string, caseless: bool, pattern: string)

  datatype Query =
    | Count(table: Ref, where: seq<Condition>)
    | Page(from: Ref, conditions: seq<Condition>, order: seq<Key>, limit: nat, offset: nat)

  // ---- The reader ---------------------------------------------------------------------------------------------

  /** Behind the cast column name: the rest of a text search. */
  function ReadLike(engine: Engine, col: string, s: string): Option<Read<Condition>> {
    match Skip(s, if engine == MySql then " AS CHAR) " else " AS TEXT) ")
    case None => None
    case Some(op) =>
      var caseless := Starts(op, "ILIKE ");
      match Skip(op, if caseless then "ILIKE " else "LIKE ")
      case None => None
      case Some(literal) =>
        match ReadValue(engine, literal)
        case Some(Read(Text(pattern), rest)) => Some(Read(Like(col, caseless, pattern), rest))
        case _ => None
  }

  function ReadTest(engine: Engine, col: string, s: string): Option<Read<Condition>> {
    if Starts(s, " IS NULL") then Some(Read(IsNull(col), s[8..]))
    else if Starts(s, " IS NOT NULL") then Some(Read(IsNotNull(col), s[12..]))
    else
      match Skip(s, " = ")
      case None => None
      case Some(value) =>
        match ReadValue(engine, value)
        case Some(Read(token, rest)) => Some(Read(Equals(col, token), rest))
        case None => None
  }

  function ReadCondition(engine: Engine, s: string): Option<Read<Condition>> {
    if Starts(s, "CAST(") then
      match ReadIdent(engine, s[5..])
      case Some(Read(col, rest)) => ReadLike(engine, col, rest)
      case None => None
    else
      match ReadIdent(engine, s)
      case Some(Read(col, rest)) => ReadTest(engine, col, rest)
      case None => None
  }

  function ReadWhere(engine: Engine, s: string): Option<Read<seq<Condition>>> {
    match Skip(s, " WHERE ")
    case None => Some(Read([], s))
    case Some(rest) => ReadList(x => ReadCondition(engine, x), " AND ", rest)
  }

  function ReadOrder(engine: Engine, s: string): Option<Read<seq<Key>>> {
    if Starts(s, " O") then ReadOrderBy(engine, s[1..]) else Some(Read([], s))
  }

  function NatOf(digits: string): nat
    requires forall i :: 0 <= i < |digits| ==> Digit(digits[i])
  {
    if digits == "" then 0
    else
      var last := digits[|digits| - 1];
      assert Digit(last);
      NatOf(digits[..|digits| - 1]) * 10 + (last as int - '0' as int)
  }

  function ReadNat(s: string): Option<Read<nat>> {
    var n := DigitsEnd(s, 0);
    if n == 0 then None else Some(Read(NatOf(s[..n]), s[n..]))
  }

  function ReadWindow(s: string): Option<(nat, nat)> {
    match Skip(s, " LIMIT ") case None => None case Some(s1) => (
    match ReadNat(s1) case None => None case Some(Read(limit, s2)) => (
    match Skip(s2, " OFFSET ") case None => None case Some(s3) => (
    match ReadNat(s3) case None => None case Some(Read(offset, s4)) =>
      if s4 == "" then Some((limit, offset)) else None)))
  }

  function ReadPage(engine: Engine, s: string): Option<Query> {
    match Skip(s, "SELECT * FROM ") case None => None case Some(s1) => (
    match ReadRef(engine, s1) case None => None case Some(Read(ref, s2)) => (
    match ReadWhere(engine, s2) case None => None case Some(Read(where, s3)) => (
    match ReadOrder(engine, s3) case None => None case Some(Read(order, s4)) => (
    match ReadWindow(s4) case None => None
    case Some((limit, offset)) => Some(Page(ref, where, order, limit, offset))))))
  }

  function ReadCount(engine: Engine, s: string): Option<Query> {
    match Skip(s, "SELECT COUNT(*) AS n FROM ") case None => None case Some(s1) => (
    match ReadRef(engine, s1) case None => None case Some(Read(ref, s2)) => (
    match ReadWhere(engine, s2) case None => None
    case Some(Read(where, s3)) => if s3 == "" then Some(Count(ref, where)) else None))
  }

  // ---- What a filter box means -----------------------------------------------------------------------------------

  /** The letter c, small or capital. */
  predicate Letter(c: char, small: char, capital: char) {
    c == small || c == capital
  }

  predicate SaysNull(s: string) {
    |s| == 4 && Letter(s[0], 'n', 'N') && Letter(s[1], 'u', 'U') && Letter(s[2], 'l', 'L') && Letter(s[3], 'l', 'L')
  }

  predicate SaysNotNull(s: string) {
    |s| == 8 && Letter(s[0], 'n', 'N') && Letter(s[1], 'o', 'O') && Letter(s[2], 't', 'T') && s[3] == ' ' && SaysNull(s[4..])
  }

  /** The null test is the word NULL or the words NOT NULL, in any case. */
  lemma NullWords(s: string)
    ensures Lower(s) == "null" <==> SaysNull(s)
    ensures Lower(s) == "not null" <==> SaysNotNull(s)
  {
    if |s| == 4 {
      assert Lower(s) == [LowerChar(s[0]), LowerChar(s[1]), LowerChar(s[2]), LowerChar(s[3])];
    } else if |s| == 8 {
      var l := Lower(s);
      assert l == [l[0], l[1], l[2], l[3], l[4], l[5], l[6], l[7]];
      assert s[4..] == [s[4], s[5], s[6], s[7]];
    }
  }

  /** The words null and not null in any case, an equals sign with a value, or a text to find
      anywhere in the column; Postgres searches without regard to case. */
  function ConditionOf(engine: Engine, col: Column, box: string): Condition {
    if SaysNull(box) then IsNull(col.name)
    else if SaysNotNull(box) then IsNotNull(col.name)
    else if box != "" && box[0] == '=' then Equals(col.name, Meaning(col.numeric, Some(box[1..])))
    else Like(col.name, engine == Postgres, "%" + box + "%")
  }

  /** One condition per column whose box is not blank, in column order. */
  function ConditionsOf(engine: Engine, columns: seq<Column>, filters: map<string, string>): seq<Condition> {
    if columns == [] then []
    else
      var col := columns[|columns| - 1];
      var box := Trim(if col.name in filters then filters[col.name] else "");
      ConditionsOf(engine, columns[..|columns| - 1], filters) + (if box == "" then [] else [ConditionOf(engine, col, box)])
  }

  // ---- Conditions read back -----------------------------------------------------------------------------------------

  lemma StartsWith(a: string, b: string)
    ensures Starts(a + b, a) && (a + b)[|a|..] == b && Skip(a + b, a) == Some(b)
  {
    assert (a + b)[..|a|] == a;
  }

  lemma IdentStartsWithQuote(engine: Engine, name: string, rest: string)
    ensures !Starts(QuoteIdent(engine, name) + rest, "CAST(")
  {
    var s := QuoteIdent(engine, name) + rest;
    assert s[0] == IdentQuote(engine);
    assert |s| >= 5 ==> s[..5][0] == s[0];
    assert "CAST("[0] == 'C';
  }

  lemma TestReadsBack(engine: Engine, col: string, test: string, c: Condition, rest: string)
    requires ReadTest(engine, col, test + rest) == Some(Read(c, rest))
    requires test != "" && test[0] == ' '
    ensures ReadCondition(engine, QuoteIdent(engine, col) + test + rest) == Some(Read(c, rest))
  {
    hide ReadTest, ReadIdent, QuoteIdent;
    var tail := test + rest;
    assert QuoteIdent(engine, col) + test + rest == QuoteIdent(engine, col) + tail;
    IdentReadsBack(engine, col, tail);
    IdentStartsWithQuote(engine, col, tail);
  }

  lemma NullTests(engine: Engine, col: string, rest: string)
    ensures ReadTest(engine, col, " IS NULL" + rest) == Some(Read(IsNull(col), rest))
    ensures ReadTest(engine, col, " IS NOT NULL" + rest) == Some(Read(IsNotNull(col), rest))
  {
    StartsWith(" IS NULL", rest);
    StartsWith(" IS NOT NULL", rest);
    var s := " IS NOT NULL" + rest;
    assert s[..8][5] == s[5] == 'O' && " IS NULL"[5] == 'U';
  }

  lemma EqualsTest(engine: Engine, col: string, numeric: bool, cell: Cell, rest: string)
    requires Follows(rest)
    ensures ReadTest(engine, col, " = " + SqlValue(engine, numeric, cell) + rest)
            == Some(Read(Equals(col, Meaning(numeric, cell)), rest))
  {
    hide ReadValue, SqlValue, Meaning;
    var value := SqlValue(engine, numeric, cell) + rest;
    var s := " = " + value;
    assert " = " + SqlValue(engine, numeric, cell) + rest == s;
    StartsWith(" = ", value);
    assert s[1] == '=';
    assert |s| >= 8 ==> s[..8][1] == '=' && " IS NULL"[1] == 'I';
    assert |s| >= 12 ==> s[..12][1] == '=' && " IS NOT NULL"[1] == 'I';
    ValueReadsBack(engine, numeric, cell, rest);
  }

  lemma LikeTail(engine: Engine, col: string, pattern: string, rest: string)
    requires Follows(rest)
    ensures var op := if engine == Postgres then "ILIKE " else "LIKE ";
            ReadLike(engine, col, " AS " + CastText(engine) + ") " + (op + (SqlLiteral(engine, Some(pattern)) + rest)))
            == Some(Read(Like(col, engine == Postgres, pattern), rest))
  {
    hide ReadValue, SqlLiteral;
    assert " AS " + CastText(engine) + ") " == if engine == MySql then " AS CHAR) " else " AS TEXT) ";
    hide CastText;
    var op := if engine == Postgres then "ILIKE " else "LIKE ";
    var literal := SqlLiteral(engine, Some(pattern)) + rest;
    StartsWith(" AS " + CastText(engine) + ") ", op + literal);
    StartsWith(op, literal);
    OperatorsDiffer(literal);
    LiteralReadsBack(engine, pattern, rest);
  }

  lemma LikeReadsBack(engine: Engine, col: string, pattern: string, rest: string)
    requires Follows(rest)
    ensures var op := if engine == Postgres then "ILIKE" else "LIKE";
            ReadCondition(engine, "CAST(" + QuoteIdent(engine, col) + " AS " + CastText(engine) + ") " + op + " "
                                  + SqlLiteral(engine, Some(pattern)) + rest)
            == Some(Read(Like(col, engine == Postgres, pattern), rest))
  {
    hide ReadLike, SqlLiteral, ReadIdent, QuoteIdent, CastText;
    var op := if engine == Postgres then "ILIKE" else "LIKE";
    var tail := " AS " + CastText(engine) + ") " + ((op + " ") + (SqlLiteral(engine, Some(pattern)) + rest));
    assert op + " " == if engine == Postgres then "ILIKE " else "LIKE ";
    LikeTail(engine, col, pattern, rest);
    StartsWith("CAST(", QuoteIdent(engine, col) + tail);
    IdentReadsBack(engine, col, tail);
    LikeRegrouped("CAST(", QuoteIdent(engine, col), " AS " + CastText(engine) + ") ", op, SqlLiteral(engine, Some(pattern)), rest);
    LikeHead(QuoteIdent(engine, col), CastText(engine));
  }

  lemma LikeRegrouped(a: string, b: string, c: string, op: string, d: string, rest: string)
    ensures a + (b + (c + ((op + " ") + (d + rest)))) == a + b + c + op + " " + d + rest
  {
  }

  lemma LikeHead(ident: string, cast: string)
    ensures "CAST(" + ident + (" AS " + cast + ") ") == "CAST(" + ident + " AS " + cast + ") "
  {
  }

  lemma OperatorsDiffer(literal: string)
    ensures !Starts("LIKE " + literal, "ILIKE ")
  {
    var s := "LIKE " + literal;
    assert s[0] == 'L';
    assert |s| >= 6 ==> s[..6][0] == 'L' && "ILIKE "[0] == 'I';
  }

  /** A filter box reads back as what it means. */
  lemma ClauseReadsBack(engine: Engine, col: Column, raw: string, rest: string)
    requires Follows(rest)
    ensures FilterClause(engine, col, raw).Some? <==> Trim(raw) != ""
    ensures FilterClause(engine, col, raw).Some? ==>
              FilterClause(engine, col, raw).value != ""
              && ReadCondition(engine, FilterClause(engine, col, raw).value + rest)
                 == Some(Read(ConditionOf(engine, col, Trim(raw)), rest))
  {
    hide ReadCondition, SqlValue, SqlLiteral, Trim, Lower, Meaning, QuoteIdent, SaysNull, SaysNotNull;
    var box := Trim(raw);
    NullWords(box);
    if box != "" {
      if Lower(box) == "null" {
        NullTests(engine, col.name, rest);
        TestReadsBack(engine, col.name, " IS NULL", IsNull(col.name), rest);
      } else if Lower(box) == "not null" {
        NullTests(engine, col.name, rest);
        TestReadsBack(engine, col.name, " IS NOT NULL", IsNotNull(col.name), rest);
      } else if box[0] == '=' {
        var cell := Some(box[1..]);
        EqualsTest(engine, col.name, col.numeric, cell, rest);
        TestReadsBack(engine, col.name, " = " + SqlValue(engine, col.numeric, cell),
                      Equals(col.name, Meaning(col.numeric, cell)), rest);
        assert QuoteIdent(engine, col.name) + " = " + SqlValue(engine, col.numeric, cell)
               == QuoteIdent(engine, col.name) + (" = " + SqlValue(engine, col.numeric, cell));
      } else {
        LikeReadsBack(engine, col.name, "%" + box + "%", rest);
      }
    }
  }

  ghost predicate ConditionPrints(engine: Engine, text: string, c: Condition) {
    Prints(x => ReadCondition(engine, x), Follows, text, c)
  }

  lemma ClausePrints(engine: Engine, col: Column, raw: string)
    requires FilterClause(engine, col, raw).Some?
    ensures Trim(raw) != ""
    ensures ConditionPrints(engine, FilterClause(engine, col, raw).value, ConditionOf(engine, col, Trim(raw)))
  {
    hide ReadCondition, FilterClause, ConditionOf, Trim;
    ClauseReadsBack(engine, col, raw, "");
    var text := FilterClause(engine, col, raw).value;
    forall rest | Follows(rest)
      ensures ReadCondition(engine, text + rest) == Some(Read(ConditionOf(engine, col, Trim(raw)), rest))
    {
      ClauseReadsBack(engine, col, raw, rest);
    }
  }

  lemma {:induction false} ClausesPrint(engine: Engine, columns: seq<Column>, filters: map<string, string>)
    ensures var texts, cs := FilterClauses(engine, columns, filters), ConditionsOf(engine, columns, filters);
            |texts| == |cs| && forall i :: 0 <= i < |cs| ==> ConditionPrints(engine, texts[i], cs[i])
  {
    hide ConditionPrints, FilterClause, ConditionOf, Trim;
    if columns != [] {
      var col := columns[|columns| - 1];
      ClausesPrint(engine, columns[..|columns| - 1], filters);
      ClauseReadsBack(engine, col, FilterText(filters, col.name), "");
      if FilterClause(engine, col, FilterText(filters, col.name)).Some? {
        ClausePrints(engine, col, FilterText(filters, col.name));
      }
    }
  }

  predicate EndsWhere(rest: string) {
    Follows(rest) && !Starts(rest, " AND ") && !Starts(rest, " WHERE ")
  }

  lemma {:induction false} SomeText(texts: seq<string>, sep: string)
    requires texts != [] && forall i :: 0 <= i < |texts| ==> texts[i] != ""
    ensures Join(texts, sep) != ""
  {
  }

  lemma ClausesNotEmpty(engine: Engine, texts: seq<string>, cs: seq<Condition>)
    requires |texts| == |cs| && forall i :: 0 <= i < |cs| ==> ConditionPrints(engine, texts[i], cs[i])
    ensures forall i :: 0 <= i < |texts| ==> texts[i] != ""
  {
    hide ReadCondition;
    forall i | 0 <= i < |texts| ensures texts[i] != "" {
      assert ConditionPrints(engine, texts[i], cs[i]);
    }
  }

  /** The WHERE clause holds exactly the conditions of the boxes, and is missing without any. */
  lemma WhereReadsBack(engine: Engine, columns: seq<Column>, filters: map<string, string>, rest: string)
    requires EndsWhere(rest)
    ensures var where := Where(engine, columns, filters);
            ReadWhere(engine, (if where != "" then " WHERE " + where else "") + rest)
            == Some(Read(ConditionsOf(engine, columns, filters), rest))
  {
    hide ReadCondition, FilterClauses, ConditionsOf, ReadList, Join, ConditionPrints;
    var texts, cs := FilterClauses(engine, columns, filters), ConditionsOf(engine, columns, filters);
    ClausesPrint(engine, columns, filters);
    ClausesNotEmpty(engine, texts, cs);
    if texts == [] {
      EmptyJoin();
      assert "" + rest == rest;
    } else {
      SomeText(texts, " AND ");
      var body := Join(texts, " AND ") + rest;
      assert " WHERE " + Join(texts, " AND ") + rest == " WHERE " + body;
      StartsWith(" WHERE ", body);
      ConditionListReadsBack(engine, texts, cs, rest);
    }
  }

  lemma EmptyJoin()
    ensures Join([], " AND ") == ""
  {
  }

  lemma ConditionListReadsBack(engine: Engine, texts: seq<string>, cs: seq<Condition>, rest: string)
    requires |texts| == |cs| > 0 && forall i :: 0 <= i < |cs| ==> ConditionPrints(engine, texts[i], cs[i])
    requires EndsWhere(rest)
    ensures ReadList(x => ReadCondition(engine, x), " AND ", Join(texts, " AND ") + rest) == Some(Read(cs, rest))
  {
    hide ReadCondition, ReadList, Join;
    ListReadsBack(x => ReadCondition(engine, x), Follows, " AND ", texts, cs, rest);
  }

  // ---- Numbers and windows ---------------------------------------------------------------------------------------

  lemma {:induction false} NatReadsBack(n: nat)
    ensures NatText(n) != "" && forall i :: 0 <= i < |NatText(n)| ==> Digit(NatText(n)[i])
    ensures NatOf(NatText(n)) == n
  {
    if n < 10 {
      assert NatText(n)[..0] == "";
    } else {
      NatReadsBack(n / 10);
      var t := NatText(n);
      assert t[..|t| - 1] == NatText(n / 10);
    }
  }

  lemma {:induction false} DigitsEndAt(t: string, rest: string, i: nat)
    requires i <= |t| && (forall k :: 0 <= k < |t| ==> Digit(t[k])) && (rest == "" || !Digit(rest[0]))
    ensures DigitsEnd(t + rest, i) == |t|
    decreases |t| - i
  {
    if i < |t| {
      DigitsEndAt(t, rest, i + 1);
    } else if rest != "" {
      assert (t + rest)[i] == rest[0];
    }
  }

  lemma NumberReadsBack(n: nat, rest: string)
    requires rest == "" || !Digit(rest[0])
    ensures ReadNat(NatText(n) + rest) == Some(Read(n, rest))
  {
    hide NatText, NatOf;
    NatReadsBack(n);
    DigitsEndAt(NatText(n), rest, 0);
    assert (NatText(n) + rest)[..|NatText(n)|] == NatText(n) && (NatText(n) + rest)[|NatText(n)|..] == rest;
  }

  lemma WindowReadsBack(limit: nat, offset: nat)
    ensures ReadWindow(" LIMIT " + NatText(limit) + " OFFSET " + NatText(offset)) == Some((limit, offset))
  {
    hide NatText, ReadNat;
    var tail := " OFFSET " + (NatText(offset) + "");
    var s := " LIMIT " + (NatText(limit) + tail);
    assert s == " LIMIT " + NatText(limit) + " OFFSET " + NatText(offset);
    StartsWith(" LIMIT ", NatText(limit) + tail);
    NumberReadsBack(limit, tail);
    StartsWith(" OFFSET ", NatText(offset) + "");
    NumberReadsBack(offset, "");
  }

  // ---- Queries -----------------------------------------------------------------------------------------------------

  /** A count query reads back to its table and the conditions of its filter boxes. */
  lemma CountQueryReadsBack(engine: Engine, t: Table, filters: map<string, string>)
    ensures ReadCount(engine, BuildCountQuery(engine, t, filters))
            == Some(Count(RefOf(engine, t), ConditionsOf(engine, t.columns, filters)))
  {
    hide ReadRef, TableRef, ReadWhere, Where, ConditionsOf, RefOf;
    var where := Where(engine, t.columns, filters);
    var tail := (if where != "" then " WHERE " + where else "") + "";
    var head := "SELECT COUNT(*) AS n FROM ";
    assert BuildCountQuery(engine, t, filters) == head + (TableRef(engine, t) + tail);
    StartsWith(head, TableRef(engine, t) + tail);
    RefReadsBack(engine, t, tail);
    WhereReadsBack(engine, t.columns, filters, "");
  }

  lemma OrderReadsBack(engine: Engine, t: Table, sort: Option<Sort>, rest: string)
    requires Starts(rest, " L")
    ensures var order := BuildOrderBy(engine, t, sort);
            ReadOrder(engine, (if order != "" then " " + order else "") + rest) == Some(Read(OrderKeys(t, sort), rest))
  {
    hide ReadOrderBy, OrderKeys, BuildOrderBy;
    var order := BuildOrderBy(engine, t, sort);
    assert rest[0] == rest[..2][0] && rest[1] == rest[..2][1];
    assert |rest| >= 2 ==> !Starts(rest, ", ") by { assert rest[..2][0] == ' '; }
    OrderByReadsBack(engine, t, sort, rest);
    if order != "" {
      OrderStarts(engine, t, sort);
      var s := " " + (order + rest);
      assert " " + order + rest == s;
      assert s[1..] == order + rest && s[..2] == " O";
    } else {
      assert "" + rest == rest;
      NoKeysWithoutColumns(engine, t, sort);
      assert rest[..2] == " L" && " L"[1] != " O"[1];
    }
  }

  lemma OrderStarts(engine: Engine, t: Table, sort: Option<Sort>)
    requires BuildOrderBy(engine, t, sort) != ""
    ensures BuildOrderBy(engine, t, sort)[0] == 'O'
  {
    hide Join, QuoteIdent, Without, PkColumns, Idents;
  }

  lemma NoKeysWithoutColumns(engine: Engine, t: Table, sort: Option<Sort>)
    requires BuildOrderBy(engine, t, sort) == ""
    ensures OrderKeys(t, sort) == []
  {
    hide Join, QuoteIdent, Without, PkColumns;
  }

  /** A page query reads back to its table, its conditions, its ordering keys and its window. */
  lemma PageQueryReadsBack(engine: Engine, t: Table, filters: map<string, string>, sort: Option<Sort>,
                           limit: int, offset: int)
    ensures ReadPage(engine, BuildPageQuery(engine, t, filters, sort, limit, offset))
            == Some(Page(RefOf(engine, t), ConditionsOf(engine, t.columns, filters), OrderKeys(t, sort),
                         if limit < 0 then 0 else limit, if offset < 0 then 0 else offset))
  {
    hide ReadRef, TableRef, ReadWhere, Where, ConditionsOf, RefOf, ReadOrder, ReadWindow, BuildOrderBy, OrderKeys, NatText;
    var where := Where(engine, t.columns, filters);
    var order := BuildOrderBy(engine, t, sort);
    var window := " LIMIT " + NatText(NonNegative(limit)) + " OFFSET " + NatText(NonNegative(offset));
    var ordered := (if order != "" then " " + order else "") + window;
    var filtered := (if where != "" then " WHERE " + where else "") + ordered;
    PageText(engine, t, filters, sort, limit, offset);
    StartsWith("SELECT * FROM ", TableRef(engine, t) + filtered);
    StartsWith(" LIMIT ", NatText(NonNegative(limit)) + (" OFFSET " + NatText(NonNegative(offset))));
    assert window == " LIMIT " + (NatText(NonNegative(limit)) + (" OFFSET " + NatText(NonNegative(offset))));
    if order != "" { OrderStarts(engine, t, sort); }
    AfterWhere(order, window);
    AfterTable(where, ordered);
    RefReadsBack(engine, t, filtered);
    WhereReadsBack(engine, t.columns, filters, ordered);
    OrderReadsBack(engine, t, sort, window);
    WindowReadsBack(NonNegative(limit), NonNegative(offset));
  }

  lemma PageText(engine: Engine, t: Table, filters: map<string, string>, sort: Option<Sort>, limit: int, offset: int)
    ensures var where := Where(engine, t.columns, filters);
            var order := BuildOrderBy(engine, t, sort);
            var window := " LIMIT " + NatText(NonNegative(limit)) + " OFFSET " + NatText(NonNegative(offset));
            BuildPageQuery(engine, t, filters, sort, limit, offset)
            == "SELECT * FROM " + (TableRef(engine, t) + ((if where != "" then " WHERE " + where else "")
                                   + ((if order != "" then " " + order else "") + window)))
  {
    hide TableRef, Where, BuildOrderBy, NatText;
  }

  lemma AfterWhere(order: string, window: string)
    requires Starts(window, " LIMIT ")
    requires order == "" || order[0] == 'O'
    ensures EndsWhere((if order != "" then " " + order else "") + window) && Starts(window, " L")
  {
    var s := (if order != "" then " " + order else "") + window;
    assert window[..7][0] == window[0] == ' ' && window[..7][1] == window[1] == 'L';
    assert s[0] == ' ' && (s[1] == 'O' || s[1] == 'L');
    assert window[..2] == " L";
    DifferentWords(s, " AND ");
    DifferentWords(s, " WHERE ");
  }

  lemma DifferentWords(s: string, word: string)
    requires |s| >= 2 && |word| >= 2 && s[1] != word[1]
    ensures !Starts(s, word)
  {
    assert |word| <= |s| ==> s[..|word|][1] == s[1];
  }

  lemma AfterTable(where: string, ordered: string)
    requires EndsWhere(ordered)
    ensures Follows((if where != "" then " WHERE " + where else "") + ordered)
  {
  }
}
