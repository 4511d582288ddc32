/** Paging: what the ORDER BY clause lists, and why the pages of a table with a primary key fit
    together even though each page is a query of its own. */
module Paging {
  import opened Wrappers
  import opened SqlText
  import opened SqlBuild
  import opened SqlReadBack
  import Sorting

  /** A key of an ORDER BY clause; ascending unless it says otherwise. */
  datatype Key = Key(col: string, desc: bool)

  // ---- The clause lists the keys -------------------------------------------------------------------------

  function Ascending(columns: seq<Column>): seq<Key> {
    seq(|columns|, i requires 0 <= i < |columns| => Key(columns[i].name, false))
  }

  /** The primary-key columns but one, ascending, in column order. */
  function KeysBut(columns: seq<Column>, but: Option<string>): seq<Key> {
    if columns == [] then []
    else
      var c := columns[|columns| - 1];
      KeysBut(columns[..|columns| - 1], but) + (if c.pk && but != Some(c.name) then [Key(c.name, false)] else [])
  }

  /** The ordering keys: the sort column and then the rest of the primary key; without a sort the
      primary key, or the first column of a table that has none. */
  function OrderKeys(t: Table, sort: Option<Sort>): seq<Key> {
    match sort
    case Some(s) => [Key(s.col, s.desc)] + KeysBut(t.columns, Some(s.col))
    case None =>
      if exists i :: 0 <= i < |t.columns| && t.columns[i].pk then KeysBut(t.columns, None)
      else if t.columns == [] then []
      else [Key(t.columns[0].name, false)]
  }

  lemma {:induction false} PkColumnsMean(columns: seq<Column>)
    ensures Ascending(PkColumns(columns)) == KeysBut(columns, None)
    ensures forall c :: c in PkColumns(columns) <==> c in columns && c.pk
  {
    if columns != [] {
      var n := |columns| - 1;
      PkColumnsMean(columns[..n]);
      PkColumnsAppend(columns);
      assert columns == columns[..n] + [columns[n]];
    }
  }

  lemma {:induction false} PkColumnsAppend(columns: seq<Column>)
    requires columns != []
    ensures var n := |columns| - 1;
            PkColumns(columns) == PkColumns(columns[..n]) + (if columns[n].pk then [columns[n]] else [])
  {
    var n := |columns| - 1;
    if n > 0 {
      PkColumnsAppend(columns[1..]);
      assert columns[1..][..n - 1] == columns[..n][1..] && columns[1..][n - 1] == columns[n];
    } else {
      assert columns[..0] == [];
    }
  }

  lemma {:induction false} WithoutAppends(columns: seq<Column>, c: Column, name: string)
    ensures Without(columns + [c], name) == Without(columns, name) + (if c.name != name then [c] else [])
  {
    if columns == [] {
      assert columns + [c] == [c];
    } else {
      assert (columns + [c])[1..] == columns[1..] + [c];
      WithoutAppends(columns[1..], c, name);
    }
  }

  lemma {:induction false} TiesMean(columns: seq<Column>, name: string)
    ensures Ascending(Without(PkColumns(columns), name)) == KeysBut(columns, Some(name))
  {
    if columns != [] {
      var n := |columns| - 1;
      TiesMean(columns[..n], name);
      PkColumnsAppend(columns);
      hide PkColumns, Without;
      var before := PkColumns(columns[..n]);
      if columns[n].pk {
        WithoutAppends(before, columns[n], name);
        OneMoreAscending(Without(before, name), columns[n]);
      } else {
        assert before + [] == before;
      }
    }
  }

  lemma OneMoreAscending(columns: seq<Column>, c: Column)
    ensures Ascending(columns + [c]) == Ascending(columns) + [Key(c.name, false)]
    ensures columns + [] == columns
  {
  }

  lemma OrderKeysMean(t: Table, sort: Option<Sort>)
    ensures OrderKeys(t, sort)
            == match sort
               case Some(s) => [Key(s.col, s.desc)] + Ascending(Without(PkColumns(t.columns), s.col))
               case None => Ascending(DefaultOrder(t))
  {
    hide PkColumns, KeysBut, Without;
    PkColumnsMean(t.columns);
    match sort
    case Some(s) => TiesMean(t.columns, s.col);
    case None =>
      if PkColumns(t.columns) != [] {
        assert PkColumns(t.columns)[0] in PkColumns(t.columns);
      }
      forall i | 0 <= i < |t.columns| && t.columns[i].pk ensures PkColumns(t.columns) != [] {
        assert t.columns[i] in t.columns;
      }
  }

  function ReadKey(engine: Engine, s: string): Option<Read<Key>> {
    match ReadIdent(engine, s)
    case None => None
    case Some(Read(col, rest)) =>
      if Starts(rest, " DESC") then Some(Read(Key(col, true), rest[5..]))
      else if Starts(rest, " ASC") then Some(Read(Key(col, false), rest[4..]))
      else Some(Read(Key(col, false), rest))
  }

  function ReadOrderBy(engine: Engine, s: string): Option<Read<seq<Key>>> {
    match Skip(s, "ORDER BY ")
    case None => None
    case Some(rest) => ReadList(x => ReadKey(engine, x), ", ", rest)
  }

  /** Behind a key comes nothing, a comma or the LIMIT clause. */
  predicate FollowsKey(rest: string) {
    rest == "" || rest[0] == ',' || Starts(rest, " L")
  }

  lemma NoDirection(rest: string)
    requires FollowsKey(rest)
    ensures !Starts(rest, " DESC") && !Starts(rest, " ASC")
  {
    if Starts(rest, " L") {
      assert rest[1] == rest[..2][1] == 'L';
      assert |rest| >= 5 ==> rest[..5][1] == rest[1];
      assert |rest| >= 4 ==> rest[..4][1] == rest[1];
      assert " DESC"[1] == 'D' && " ASC"[1] == 'A';
    } else if rest != "" {
      assert |rest| >= 5 ==> rest[..5][0] == ',';
      assert |rest| >= 4 ==> rest[..4][0] == ',';
    }
  }

  lemma PlainKeyReadsBack(engine: Engine, col: string, rest: string)
    requires FollowsKey(rest)
    ensures ReadKey(engine, QuoteIdent(engine, col) + rest) == Some(Read(Key(col, false), rest))
  {
    hide ReadIdent, QuoteIdent;
    assert Starts(rest, " L") ==> rest[0] == rest[..2][0];
    IdentReadsBack(engine, col, rest);
    NoDirection(rest);
  }

  lemma SortKeyReadsBack(engine: Engine, s: Sort, rest: string)
    ensures ReadKey(engine, QuoteIdent(engine, s.col) + " " + (if s.desc then "DESC" else "ASC") + rest)
            == Some(Read(Key(s.col, s.desc), rest))
  {
    hide ReadIdent, QuoteIdent;
    var dir := if s.desc then " DESC" else " ASC";
    var tail := dir + rest;
    assert QuoteIdent(engine, s.col) + " " + (if s.desc then "DESC" else "ASC") + rest == QuoteIdent(engine, s.col) + tail;
    assert tail[..|dir|] == dir && tail[|dir|..] == rest;
    assert !s.desc && |tail| >= 5 ==> tail[..5][1] == 'A' && " DESC"[1] == 'D';
    IdentReadsBack(engine, s.col, tail);
  }

  ghost predicate KeyPrints(engine: Engine, text: string, key: Key) {
    Prints(x => ReadKey(engine, x), FollowsKey, text, key)
  }

  lemma PlainKeysPrint(engine: Engine, columns: seq<Column>)
    ensures forall i :: 0 <= i < |columns| ==> KeyPrints(engine, Idents(engine, columns)[i], Ascending(columns)[i])
  {
    hide ReadKey, QuoteIdent;
    forall i | 0 <= i < |columns| ensures KeyPrints(engine, Idents(engine, columns)[i], Ascending(columns)[i]) {
      IdentNotEmpty(engine, columns[i].name);
      forall rest | FollowsKey(rest)
        ensures ReadKey(engine, QuoteIdent(engine, columns[i].name) + rest) == Some(Read(Key(columns[i].name, false), rest))
      {
        PlainKeyReadsBack(engine, columns[i].name, rest);
      }
    }
  }

  lemma KeysReadBack(engine: Engine, texts: seq<string>, keys: seq<Key>, rest: string)
    requires |texts| == |keys| > 0 && forall i :: 0 <= i < |keys| ==> KeyPrints(engine, texts[i], keys[i])
    requires FollowsKey(rest) && !Starts(rest, ", ")
    ensures ReadOrderBy(engine, "ORDER BY " + Join(texts, ", ") + rest) == Some(Read(keys, rest))
  {
    hide ReadKey, Join, ReadList, Skip;
    var tail := Join(texts, ", ") + rest;
    assert "ORDER BY " + Join(texts, ", ") + rest == "ORDER BY " + tail;
    SkipWord("ORDER BY ", tail);
    ListReadsBack(x => ReadKey(engine, x), FollowsKey, ", ", texts, keys, rest);
  }

  /** The ORDER BY clause, read as SQL, lists exactly the keys; it is empty only without columns. */
  lemma OrderByReadsBack(engine: Engine, t: Table, sort: Option<Sort>, rest: string)
    requires FollowsKey(rest) && !Starts(rest, ", ")
    ensures BuildOrderBy(engine, t, sort) == "" <==> sort.None? && t.columns == []
    ensures BuildOrderBy(engine, t, sort) != "" ==>
              ReadOrderBy(engine, BuildOrderBy(engine, t, sort) + rest) == Some(Read(OrderKeys(t, sort), rest))
  {
    assert t.columns == [] ==> PkColumns(t.columns) == [];
    OrderKeysMean(t, sort);
    hide KeyPrints, QuoteIdent, Join, PkColumns, Without, ReadOrderBy, OrderKeys;
    match sort
    case None =>
      PlainKeysPrint(engine, DefaultOrder(t));
      if DefaultOrder(t) != [] {
        KeysReadBack(engine, Idents(engine, DefaultOrder(t)), Ascending(DefaultOrder(t)), rest);
      }
    case Some(s) =>
      var ties := Without(PkColumns(t.columns), s.col);
      var head := QuoteIdent(engine, s.col) + " " + (if s.desc then "DESC" else "ASC");
      PlainKeysPrint(engine, ties);
      SortKeyPrints(engine, s);
      KeysReadBack(engine, [head] + Idents(engine, ties), [Key(s.col, s.desc)] + Ascending(ties), rest);
  }

  lemma SortKeyPrints(engine: Engine, s: Sort)
    ensures KeyPrints(engine, QuoteIdent(engine, s.col) + " " + (if s.desc then "DESC" else "ASC"), Key(s.col, s.desc))
  {
    hide ReadKey, QuoteIdent;
    forall rest | FollowsKey(rest)
      ensures ReadKey(engine, QuoteIdent(engine, s.col) + " " + (if s.desc then "DESC" else "ASC") + rest)
              == Some(Read(Key(s.col, s.desc), rest))
    {
      SortKeyReadsBack(engine, s, rest);
    }
  }

  // ---- The keys cover the primary key -----------------------------------------------------------------------

  predicate Lists(keys: seq<Key>, col: string) {
    exists i :: 0 <= i < |keys| && keys[i].col == col
  }

  /** With a primary key, every key column is an ordering key, whatever the sort. */
  lemma KeysCoverPrimaryKey(t: Table, sort: Option<Sort>, c: Column)
    requires c in t.columns && c.pk
    ensures Lists(OrderKeys(t, sort), c.name)
  {
    hide PkColumns, Without, OrderKeys;
    OrderKeysMean(t, sort);
    PkColumnsMean(t.columns);
    match sort
    case None =>
      var i :| 0 <= i < |DefaultOrder(t)| && DefaultOrder(t)[i] == c;
      assert OrderKeys(t, sort)[i].col == c.name;
    case Some(s) =>
      if c.name == s.col {
        assert OrderKeys(t, sort)[0].col == c.name;
      } else {
        var ties := Without(PkColumns(t.columns), s.col);
        WithoutMeaning(PkColumns(t.columns), s.col, c);
        var i :| 0 <= i < |ties| && ties[i] == c;
        assert OrderKeys(t, sort)[i + 1].col == c.name;
      }
  }

  // ---- Rows in order --------------------------------------------------------------------------------------------

  /** A stored row; a cell is its rank in the column's own sort order, so equal ranks are equal keys. */
  datatype Row = Row(id: int, cells: map<string, int>)

  function CellOf(r: Row, col: string): int {
    if col in r.cells then r.cells[col] else 0
  }

  /** Negative, zero or positive: a before, level with, or after b. */
  function Cmp(keys: seq<Key>, a: Row, b: Row): int {
    if keys == [] then 0
    else
      var x, y := CellOf(a, keys[0].col), CellOf(b, keys[0].col);
      if x == y then Cmp(keys[1..], a, b) else if keys[0].desc then y - x else x - y
  }

  ghost predicate Sorted(keys: seq<Key>, o: seq<Row>) {
    forall i, j :: 0 <= i < j < |o| ==> Cmp(keys, o[i], o[j]) <= 0
  }

  /** An order in which the database may produce the filtered rows. */
  ghost predicate Answers(keys: seq<Key>, rows: seq<Row>, o: seq<Row>) {
    multiset(o) == multiset(rows) && Sorted(keys, o)
  }

  /** No two stored rows have the same primary key. */
  ghost predicate KeyIsUnique(t: Table, rows: seq<Row>) {
    forall i, j :: 0 <= i < |rows| && 0 <= j < |rows| && SameKey(t, rows[i], rows[j]) ==> i == j
  }

  ghost predicate SameKey(t: Table, a: Row, b: Row) {
    forall c :: c in t.columns && c.pk ==> CellOf(a, c.name) == CellOf(b, c.name)
  }

  ghost predicate Distinguishes(keys: seq<Key>, rows: seq<Row>) {
    forall a, b :: a in rows && b in rows && Cmp(keys, a, b) == 0 ==> a == b
  }

  lemma {:induction false} LevelMeansEqualCells(keys: seq<Key>, a: Row, b: Row, col: string)
    requires Cmp(keys, a, b) == 0 && Lists(keys, col)
    ensures CellOf(a, col) == CellOf(b, col)
  {
    if keys[0].col != col {
      var i :| 0 <= i < |keys| && keys[i].col == col;
      assert keys[1..][i - 1].col == col;
      LevelMeansEqualCells(keys[1..], a, b, col);
    }
  }

  lemma {:induction false} CmpAntisymmetric(keys: seq<Key>, a: Row, b: Row)
    ensures Cmp(keys, a, b) == -Cmp(keys, b, a)
  {
    if keys != [] {
      CmpAntisymmetric(keys[1..], a, b);
    }
  }

  lemma {:induction false} CmpTransitive(keys: seq<Key>, a: Row, b: Row, c: Row)
    requires Cmp(keys, a, b) <= 0 && Cmp(keys, b, c) <= 0
    ensures Cmp(keys, a, c) <= 0
  {
    if keys != [] && CellOf(a, keys[0].col) == CellOf(b, keys[0].col) == CellOf(c, keys[0].col) {
      CmpTransitive(keys[1..], a, b, c);
    }
  }

  lemma UniqueKeysDistinguish(t: Table, sort: Option<Sort>, rows: seq<Row>)
    requires KeyIsUnique(t, rows)
    ensures Distinguishes(OrderKeys(t, sort), rows)
  {
    var keys := OrderKeys(t, sort);
    forall a, b | a in rows && b in rows && Cmp(keys, a, b) == 0 ensures a == b {
      forall c | c in t.columns && c.pk ensures CellOf(a, c.name) == CellOf(b, c.name) {
        KeysCoverPrimaryKey(t, sort, c);
        LevelMeansEqualCells(keys, a, b, c.name);
      }
      assert SameKey(t, a, b);
    }
  }

  /** If the keys tell the rows apart, there is only one order to produce them in. */
  lemma {:induction false} OrderIsDetermined(keys: seq<Key>, o: seq<Row>, p: seq<Row>)
    requires multiset(o) == multiset(p) && Sorted(keys, o) && Sorted(keys, p) && Distinguishes(keys, o)
    ensures o == p
    decreases |o|
  {
    hide Sorted, Distinguishes, Cmp;
    if o == [] {
      assert |p| == |multiset(p)| == 0;
    } else {
      SameFirst(keys, o, p);
      Sorting.WithoutFirst(o);
      Sorting.WithoutFirst(p);
      TailsToo(keys, o);
      TailsToo(keys, p);
      OrderIsDetermined(keys, o[1..], p[1..]);
      assert o == [o[0]] + o[1..] && p == [p[0]] + p[1..];
    }
  }

  lemma TailsToo(keys: seq<Key>, o: seq<Row>)
    requires o != [] && Sorted(keys, o)
    ensures Sorted(keys, o[1..])
    ensures Distinguishes(keys, o) ==> Distinguishes(keys, o[1..])
  {
    hide Cmp;
    assert forall a :: a in o[1..] ==> a in o;
  }

  lemma SameFirst(keys: seq<Key>, o: seq<Row>, p: seq<Row>)
    requires o != [] && multiset(o) == multiset(p) && Sorted(keys, o) && Sorted(keys, p) && Distinguishes(keys, o)
    ensures p != [] && o[0] == p[0]
  {
    hide Cmp;
    assert o[0] in multiset(p);
    FirstIsLeast(keys, o, p);
    FirstIsLeast(keys, p, o);
    CmpAntisymmetric(keys, o[0], p[0]);
    assert p[0] in multiset(o);
  }

  lemma FirstIsLeast(keys: seq<Key>, o: seq<Row>, p: seq<Row>)
    requires o != [] && p != [] && multiset(o) == multiset(p) && Sorted(keys, p)
    ensures Cmp(keys, p[0], o[0]) <= 0
  {
    assert o[0] in multiset(p);
    var i :| 0 <= i < |p| && p[i] == o[0];
    CmpAntisymmetric(keys, o[0], o[0]);
  }

  // ---- Pages -------------------------------------------------------------------------------------------------------

  function Min(a: int, b: int): int {
    if a < b then a else b
  }

  /** What LIMIT and OFFSET select from an order. */
  function PageOf(o: seq<Row>, offset: nat, limit: nat): seq<Row> {
    o[Min(offset, |o|)..Min(offset + limit, |o|)]
  }

  /** The pages at offsets 0, n, 2n, ..., each from the order its own query was answered in. */
  function Pages(orders: seq<seq<Row>>, n: nat): seq<Row> {
    if orders == [] then []
    else
      var last := |orders| - 1;
      Pages(orders[..last], n) + PageOf(orders[last], last * n, n)
  }

  lemma {:induction false} PagesArePrefix(orders: seq<seq<Row>>, o: seq<Row>, n: nat)
    requires forall k :: 0 <= k < |orders| ==> orders[k] == o
    ensures Pages(orders, n) == o[..Min(|orders| * n, |o|)]
  {
    if orders != [] {
      var last := |orders| - 1;
      PagesArePrefix(orders[..last], o, n);
      NextPage(o, last, n);
    }
  }

  lemma NextPage(o: seq<Row>, last: nat, n: nat)
    ensures o[..Min(last * n, |o|)] + PageOf(o, last * n, n) == o[..Min((last + 1) * n, |o|)]
  {
    var offset := last * n;
    assert (last + 1) * n == offset + n;
    PrefixGrows(o, offset, n);
  }

  lemma PrefixGrows(o: seq<Row>, offset: nat, n: nat)
    ensures o[..Min(offset, |o|)] + PageOf(o, offset, n) == o[..Min(offset + n, |o|)]
  {
  }

  /** Each page query is answered in some order of the keys. */
  ghost predicate AllAnswer(keys: seq<Key>, rows: seq<Row>, orders: seq<seq<Row>>) {
    forall k :: 0 <= k < |orders| ==> Answers(keys, rows, orders[k])
  }

  /** Enough pages of n rows show every filtered row exactly as often as it is there, whatever
      order each page query was answered in. */
  ghost predicate PagesFit(keys: seq<Key>, rows: seq<Row>, n: nat) {
    forall orders :: AllAnswer(keys, rows, orders) && |orders| * n >= |rows| ==> multiset(Pages(orders, n)) == multiset(rows)
  }

  lemma DistinctRowsFit(keys: seq<Key>, rows: seq<Row>, orders: seq<seq<Row>>, n: nat)
    requires Distinguishes(keys, rows) && AllAnswer(keys, rows, orders)
    requires |orders| > 0 && |orders| * n >= |rows|
    ensures Pages(orders, n) == orders[0]
  {
    hide Cmp, Sorted, Pages;
    forall k | 0 <= k < |orders| ensures orders[k] == orders[0] {
      forall a | a in orders[0] ensures a in rows {
        assert a in multiset(orders[0]);
        assert a in multiset(rows);
      }
      assert multiset(orders[0]) == multiset(orders[k]);
      OrderIsDetermined(keys, orders[0], orders[k]);
    }
    PagesArePrefix(orders, orders[0], n);
    assert |orders[0]| == |multiset(orders[0])| == |multiset(rows)| == |rows|;
  }

  /** With a primary key the pages concatenate to the filtered rows in order: nothing repeated,
      nothing skipped, and as many rows as the count query counts, although every page query
      breaks ties as it likes. */
  lemma PagesFitTogether(t: Table, sort: Option<Sort>, rows: seq<Row>, orders: seq<seq<Row>>, n: nat)
    requires KeyIsUnique(t, rows)
    requires AllAnswer(OrderKeys(t, sort), rows, orders)
    requires |orders| > 0 && |orders| * n >= |rows|
    ensures Pages(orders, n) == orders[0]
    ensures multiset(Pages(orders, n)) == multiset(rows) && |Pages(orders, n)| == |rows|
  {
    hide Cmp, Sorted, Pages, Distinguishes, KeyIsUnique;
    UniqueKeysDistinguish(t, sort, rows);
    DistinctRowsFit(OrderKeys(t, sort), rows, orders, n);
    assert |orders[0]| == |multiset(orders[0])| == |multiset(rows)| == |rows|;
  }

  // ---- Without distinguishing keys ------------------------------------------------------------------------------

  function Swapped(o: seq<Row>, i: nat): seq<Row>
    requires i + 1 < |o|
  {
    o[i := o[i + 1]][i + 1 := o[i]]
  }

  /** Every page from the order o, but the page at i + 1 from o with the rows at i and i + 1 swapped. */
  function OneSwapped(o: seq<Row>, i: nat): seq<seq<Row>>
    requires i + 1 < |o|
  {
    seq(|o|, k => if k == i + 1 then Swapped(o, i) else o)
  }

  lemma SwapStaysSorted(keys: seq<Key>, o: seq<Row>, i: nat)
    requires Sorted(keys, o) && i + 1 < |o| && Cmp(keys, o[i], o[i + 1]) == 0
    ensures Sorted(keys, Swapped(o, i))
  {
    var p := Swapped(o, i);
    CmpAntisymmetric(keys, o[i], o[i + 1]);
    hide Cmp;
    forall j, k | 0 <= j < k < |p| ensures Cmp(keys, p[j], p[k]) <= 0 {
      if j == i && k == i + 1 {
      } else if j == i {
        assert Cmp(keys, o[i + 1], o[k]) <= 0;
      } else if j == i + 1 {
        assert Cmp(keys, o[i], o[k]) <= 0;
      } else if k == i {
        assert Cmp(keys, o[j], o[i + 1]) <= 0;
      } else if k == i + 1 {
        assert Cmp(keys, o[j], o[i]) <= 0;
      } else {
        assert Cmp(keys, o[j], o[k]) <= 0;
      }
    }
  }

  lemma SwapKeepsRows(o: seq<Row>, i: nat)
    requires i + 1 < |o|
    ensures multiset(Swapped(o, i)) == multiset(o)
  {
    var head, tail := o[..i], o[i + 2..];
    assert o == head + ([o[i]] + [o[i + 1]]) + tail;
    assert Swapped(o, i) == head + ([o[i + 1]] + [o[i]]) + tail;
    SwapMiddle(head, o[i], o[i + 1], tail);
  }

  lemma SwapMiddle(head: seq<Row>, a: Row, b: Row, tail: seq<Row>)
    ensures multiset(head + ([b] + [a]) + tail) == multiset(head + ([a] + [b]) + tail)
  {
  }

  /** Pages of one row show the first row of the first order, the second of the second, and so on. */
  lemma {:induction false} OneRowPages(orders: seq<seq<Row>>, n: nat)
    requires |orders| <= n && forall k :: 0 <= k < |orders| ==> |orders[k]| == n
    ensures |Pages(orders, 1)| == |orders|
    ensures forall k :: 0 <= k < |orders| ==> Pages(orders, 1)[k] == orders[k][k]
  {
    if orders != [] {
      var last := |orders| - 1;
      OneRowPages(orders[..last], n);
      assert PageOf(orders[last], last, 1) == [orders[last][last]];
    }
  }

  /** A tie of two different neighbours breaks paging: both orders answer the query, and pages of
      one row served from the one and then the other show the first row again in the second's place. */
  lemma TiesBreakPaging(keys: seq<Key>, rows: seq<Row>, o: seq<Row>, i: nat)
    requires Answers(keys, rows, o) && i + 1 < |o| && Cmp(keys, o[i], o[i + 1]) == 0 && o[i] != o[i + 1]
    ensures AllAnswer(keys, rows, OneSwapped(o, i)) && |OneSwapped(o, i)| == |rows|
    ensures Pages(OneSwapped(o, i), 1) == o[i + 1 := o[i]]
    ensures multiset(Pages(OneSwapped(o, i), 1)) != multiset(rows)
  {
    SwapAnswers(keys, rows, o, i);
    SwappedPages(o, i);
    ReplacingChangesRows(o, i + 1, o[i]);
    hide Cmp, Sorted, Pages, AllAnswer, OneSwapped;
  }

  lemma SwapAnswers(keys: seq<Key>, rows: seq<Row>, o: seq<Row>, i: nat)
    requires Answers(keys, rows, o) && i + 1 < |o| && Cmp(keys, o[i], o[i + 1]) == 0
    ensures AllAnswer(keys, rows, OneSwapped(o, i)) && |OneSwapped(o, i)| == |rows| && multiset(o) == multiset(rows)
  {
    SwapStaysSorted(keys, o, i);
    SwapKeepsRows(o, i);
    hide Cmp, Sorted;
    assert |o| == |multiset(o)| == |multiset(rows)| == |rows|;
  }

  lemma SwappedPages(o: seq<Row>, i: nat)
    requires i + 1 < |o|
    ensures Pages(OneSwapped(o, i), 1) == o[i + 1 := o[i]]
  {
    hide Pages;
    var orders := OneSwapped(o, i);
    forall k | 0 <= k < |orders| ensures |orders[k]| == |o| {
      assert |Swapped(o, i)| == |o|;
    }
    OneRowPages(orders, |o|);
    assert Swapped(o, i)[i + 1] == o[i];
  }

  lemma ReplacingChangesRows(o: seq<Row>, i: nat, r: Row)
    requires i < |o| && o[i] != r
    ensures multiset(o[i := r]) != multiset(o)
  {
    var p := o[i := r];
    Sorting.WithoutOne(o, i);
    Sorting.WithoutOne(p, i);
    assert o[..i] + o[i + 1..] == p[..i] + p[i + 1..];
    assert multiset(p)[r] == (multiset(p) - multiset{r})[r] + 1 by {
      assert p[i] in multiset(p);
    }
  }

  /** Two different rows that tie lie in a block of ties, and somewhere in it two neighbours differ. */
  lemma {:induction false} NeighboursDiffer(keys: seq<Key>, o: seq<Row>, i: nat, j: nat) returns (m: nat)
    requires Sorted(keys, o) && i < j < |o| && Cmp(keys, o[i], o[j]) == 0 && o[i] != o[j]
    ensures m + 1 < |o| && Cmp(keys, o[m], o[m + 1]) == 0 && o[m] != o[m + 1]
    decreases j - i
  {
    if o[i + 1] == o[i] {
      m := NeighboursDiffer(keys, o, i + 1, j);
    } else {
      m := i;
      CmpAntisymmetric(keys, o[i], o[j]);
      CmpAntisymmetric(keys, o[i], o[i + 1]);
      if i + 1 < j {
        CmpTransitive(keys, o[i + 1], o[j], o[i]);
      }
    }
  }

  function ByKeys(keys: seq<Key>): (Row, Row) -> int {
    (a, b) => Cmp(keys, a, b)
  }

  /** Whatever the keys, the database can answer. */
  lemma SomeOrderAnswers(keys: seq<Key>, rows: seq<Row>)
    ensures Answers(keys, rows, Sorting.SortBy(ByKeys(keys), rows))
  {
    forall a, b ensures ByKeys(keys)(a, b) < 0 <==> ByKeys(keys)(b, a) > 0 {
      CmpAntisymmetric(keys, a, b);
    }
    forall a, b, c | ByKeys(keys)(a, b) <= 0 && ByKeys(keys)(b, c) <= 0 ensures ByKeys(keys)(a, c) <= 0 {
      CmpTransitive(keys, a, b, c);
    }
    hide Cmp;
    Sorting.SortPermutes(ByKeys(keys), rows);
    Sorting.SortSorts(ByKeys(keys), rows);
    var o := Sorting.SortBy(ByKeys(keys), rows);
    forall i, j | 0 <= i < j < |o| ensures Cmp(keys, o[i], o[j]) <= 0 {
      assert ByKeys(keys)(o[i], o[j]) <= 0;
    }
  }

  lemma TiedRowsDoNotFit(keys: seq<Key>, rows: seq<Row>, a: Row, b: Row)
    requires a in rows && b in rows && a != b && Cmp(keys, a, b) == 0
    ensures !PagesFit(keys, rows, 1)
  {
    CmpAntisymmetric(keys, a, b);
    SomeOrderAnswers(keys, rows);
    hide Cmp, Sorted, Pages;
    var o := Sorting.SortBy(ByKeys(keys), rows);
    assert a in multiset(o) && b in multiset(o);
    var i :| 0 <= i < |o| && o[i] == a;
    var j :| 0 <= j < |o| && o[j] == b;
    var m := NeighboursDiffer(keys, o, if i < j then i else j, if i < j then j else i);
    TiesBreakPaging(keys, rows, o, m);
    var orders := OneSwapped(o, m);
    assert |orders| * 1 >= |rows|;
  }

  /** Pages of every size fit together, whatever order each page query was answered in, if and only if
      the ordering keys tell the filtered rows apart. */
  lemma PagesFitExactly(keys: seq<Key>, rows: seq<Row>)
    ensures (forall n: nat :: PagesFit(keys, rows, n)) <==> Distinguishes(keys, rows)
  {
    hide Cmp, Sorted, Pages;
    if Distinguishes(keys, rows) {
      forall n: nat ensures PagesFit(keys, rows, n) {
        forall orders | AllAnswer(keys, rows, orders) && |orders| * n >= |rows|
          ensures multiset(Pages(orders, n)) == multiset(rows)
        {
          if |orders| > 0 {
            DistinctRowsFit(keys, rows, orders, n);
          } else {
            NoPages(orders, n);
            assert rows == [];
          }
        }
      }
    } else {
      var a, b :| a in rows && b in rows && Cmp(keys, a, b) == 0 && a != b;
      TiedRowsDoNotFit(keys, rows, a, b);
    }
  }

  lemma NoPages(orders: seq<seq<Row>>, n: nat)
    requires orders == []
    ensures Pages(orders, n) == []
  {
  }
}
