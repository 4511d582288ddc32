/** What the rendered values of a schema comparison tell apart, and what an empty list of differences
    means for the tables, columns, indexes and foreign keys themselves. */
module SchemaNames {
  import opened Wrappers
  import opened SqlText
  import opened Sorting
  import opened SchemaDiff
  import opened SchemaDiffLaws

  predicate Free(s: string, c: char) {
    forall i :: 0 <= i < |s| ==> s[i] != c
  }

  /** Before its first separator a text is what was put there. */
  lemma SplitAt(a: string, b: string, x: string, y: string, c: char)
    requires Free(a, c) && Free(x, c) && a + [c] + b == x + [c] + y
    ensures a == x && b == y
  {
    var s := a + [c] + b;
    assert s[|a|] == c && s[|x|] == c;
    assert forall i :: 0 <= i < |a| ==> s[i] == a[i];
    assert forall i :: 0 <= i < |x| ==> s[i] == x[i];
    assert a == s[..|a|] && x == s[..|x|] && b == s[|a| + 1..] && y == s[|x| + 1..];
  }

  // ---- Tables --------------------------------------------------------------------------------------------------

  /** No schema and an empty schema are the same. */
  function SchemaText(t: Table): string {
    match t.schema
    case Some(schema) => schema
    case None => ""
  }

  /** Table keys tell schema and name apart, as long as no schema holds a dot. */
  lemma TableKeyMeaning(a: Table, b: Table)
    requires Free(SchemaText(a), '.') && Free(SchemaText(b), '.')
    ensures TableKey(a) == TableKey(b) <==> SchemaText(a) == SchemaText(b) && a.name == b.name
  {
    assert TableKey(a) == SchemaText(a) + ['.'] + a.name && TableKey(b) == SchemaText(b) + ['.'] + b.name;
    if TableKey(a) == TableKey(b) {
      SplitAt(SchemaText(a), a.name, SchemaText(b), b.name, '.');
    }
  }

  /** With a dot in a schema two tables can share a key. */
  lemma DottedSchemasClash(kind: string)
    ensures var a, b := Table(Some("a"), "b.c", kind, [], [], []), Table(Some("a.b"), "c", kind, [], [], []);
            TableKey(a) == TableKey(b) && a.name != b.name
  {
    assert "a" + "." + "b.c" == "a.b" + "." + "c";
  }

  // ---- Columns -------------------------------------------------------------------------------------------------

  function NullText(nullable: bool): string {
    if nullable then "NULL" else "NOT NULL"
  }

  function FlagsText(c: Column): string {
    NullText(c.nullable) + (if c.pk then " \U{B7} PK" else "")
  }

  lemma ColumnValueParts(c: Column)
    ensures ColumnValue(c) == (if c.dataType != "" then c.dataType + " \U{B7} " else "") + FlagsText(c)
  {
    var pk := if c.pk then ["PK"] else [];
    var flags := [NullText(c.nullable)] + pk;
    assert Join(flags, " \U{B7} ") == FlagsText(c);
    if c.dataType != "" {
      assert [c.dataType] + [NullText(c.nullable)] + pk == [c.dataType] + flags;
      assert ([c.dataType] + flags)[1..] == flags;
      assert Join([c.dataType] + flags, " \U{B7} ") == c.dataType + " \U{B7} " + Join(flags, " \U{B7} ");
    } else {
      assert [] + [NullText(c.nullable)] + pk == flags;
    }
  }

  lemma FlagsMeaning(a: Column, b: Column)
    ensures FlagsText(a) == FlagsText(b) <==> a.nullable == b.nullable && a.pk == b.pk
    ensures |FlagsText(a)| > 0 && (FlagsText(a)[0] == 'N')
  {
    var x, y := FlagsText(a), FlagsText(b);
    assert x[1] == (if a.nullable then 'U' else 'O') && y[1] == (if b.nullable then 'U' else 'O');
    assert x[|x| - 1] == (if a.pk then 'K' else if a.nullable then 'L' else 'L');
    assert y[|y| - 1] == (if b.pk then 'K' else if b.nullable then 'L' else 'L');
  }

  /** A shown column tells type and flags apart, as long as its type holds no middle dot. */
  lemma ColumnValueMeaning(a: Column, b: Column)
    requires Free(a.dataType, '\U{B7}') && Free(b.dataType, '\U{B7}')
    ensures ColumnValue(a) == ColumnValue(b) <==> a.dataType == b.dataType && a.nullable == b.nullable && a.pk == b.pk
  {
    hide ColumnValue, FlagsText;
    ColumnValueParts(a);
    ColumnValueParts(b);
    FlagsMeaning(a, b);
    FlagsMeaning(b, a);
    assert "" + FlagsText(a) == FlagsText(a) && "" + FlagsText(b) == FlagsText(b);
    if ColumnValue(a) == ColumnValue(b) {
      if a.dataType != "" && b.dataType != "" {
        TypesSplit(a.dataType, FlagsText(a), b.dataType, FlagsText(b));
      } else if a.dataType != "" {
        TypeIsNoFlag(a.dataType, FlagsText(a), b);
      } else if b.dataType != "" {
        TypeIsNoFlag(b.dataType, FlagsText(b), a);
      }
    }
  }

  lemma TypesSplit(a: string, f: string, b: string, g: string)
    requires Free(a, '\U{B7}') && Free(b, '\U{B7}') && a + " \U{B7} " + f == b + " \U{B7} " + g
    ensures a == b && f == g
  {
    var c := '\U{B7}';
    assert a + " \U{B7} " + f == (a + " ") + [c] + (" " + f);
    assert b + " \U{B7} " + g == (b + " ") + [c] + (" " + g);
    SplitAt(a + " ", " " + f, b + " ", " " + g, c);
    assert a == (a + " ")[..|a|] && b == (b + " ")[..|b|];
    assert f == (" " + f)[1..] && g == (" " + g)[1..];
  }

  /** A type in front leaves the flags behind the first middle dot, where otherwise PK stands. */
  lemma TypeIsNoFlag(a: string, f: string, b: Column)
    requires Free(a, '\U{B7}') && |f| > 0 && f[0] == 'N'
    ensures a + " \U{B7} " + f != FlagsText(b)
  {
    var c := '\U{B7}';
    var s, n := a + " \U{B7} " + f, NullText(b.nullable) + " ";
    assert Free(n, c) && Free(a + " ", c);
    assert s[|a| + 1] == c && s[|a| + 3] == 'N';
    if b.pk {
      assert FlagsText(b) == n + [c] + " PK";
      assert FlagsText(b)[|n|] == c && FlagsText(b)[|n| + 2] == 'P';
      FirstAt(s, a + " ", [c] + (" " + f), c, |a| + 1);
      FirstAt(FlagsText(b), n, [c] + " PK", c, |n|);
    } else {
      assert FlagsText(b) == NullText(b.nullable) + "";
      assert Free(FlagsText(b), c);
    }
  }

  /** The first separator is where the text before it ends. */
  lemma FirstAt(s: string, a: string, rest: string, c: char, n: nat)
    requires s == a + rest && n == |a| && Free(a, c)
    ensures forall i :: 0 <= i < n ==> s[i] != c
  {
  }

  // ---- Indexes -------------------------------------------------------------------------------------------------

  predicate PlainNames(names: seq<string>) {
    forall i :: 0 <= i < |names| ==> names[i] != "" && Free(names[i], ',')
  }

  lemma {:induction false} ListsSplit(xs: seq<string>, ys: seq<string>)
    requires PlainNames(xs) && PlainNames(ys) && Join(xs, ", ") == Join(ys, ", ")
    ensures xs == ys
    decreases |xs|
  {
    JoinShape(xs);
    JoinShape(ys);
    OneOrMany(xs);
    OneOrMany(ys);
    hide Join;
    if |xs| > 1 {
      var u, v := Join(xs[1..], ", "), Join(ys[1..], ", ");
      assert xs[0] + ", " + u == xs[0] + [','] + (" " + u) && ys[0] + ", " + v == ys[0] + [','] + (" " + v);
      SplitAt(xs[0], " " + u, ys[0], " " + v, ',');
      assert u == (" " + u)[1..] && v == (" " + v)[1..];
      ListsSplit(xs[1..], ys[1..]);
      assert xs == [xs[0]] + xs[1..] && ys == [ys[0]] + ys[1..];
    }
  }

  lemma OneOrMany(xs: seq<string>)
    requires PlainNames(xs)
    ensures Free(Join(xs, ", "), ',') <==> |xs| <= 1
  {
    JoinShape(xs);
    hide Join;
    if |xs| > 1 {
      assert (xs[0] + ", " + Join(xs[1..], ", "))[|xs[0]|] == ',';
    }
  }

  lemma JoinShape(xs: seq<string>)
    ensures |xs| == 0 ==> Join(xs, ", ") == ""
    ensures |xs| == 1 ==> Join(xs, ", ") == xs[0]
    ensures |xs| > 1 ==> Join(xs, ", ") == xs[0] + ", " + Join(xs[1..], ", ")
  {
  }

  /** A shown index tells uniqueness and columns apart, as long as its columns have names without commas. */
  lemma IndexValueMeaning(a: Index, b: Index)
    requires PlainNames(a.columns) && PlainNames(b.columns)
    ensures IndexValue(a) == IndexValue(b) <==> a.unique == b.unique && a.columns == b.columns
  {
    hide Join;
    var x, y := Join(a.columns, ", "), Join(b.columns, ", ");
    assert IndexValue(a)[0] == (if a.unique then 'U' else '(') && IndexValue(b)[0] == (if b.unique then 'U' else '(');
    if IndexValue(a) == IndexValue(b) {
      var n := if a.unique then 8 else 1;
      assert x == IndexValue(a)[n..|IndexValue(a)| - 1] && y == IndexValue(b)[n..|IndexValue(b)| - 1];
      ListsSplit(a.columns, b.columns);
    }
  }

  /** With a comma in a name, or with an empty name, two indexes can be shown alike. */
  lemma CommasClash(name: string, unique: bool)
    ensures IndexValue(Index(name, ["a", "b"], unique)) == IndexValue(Index(name, ["a, b"], unique))
    ensures IndexValue(Index(name, [], unique)) == IndexValue(Index(name, [""], unique))
  {
    assert ["a", "b"][1..] == ["b"];
    assert Join(["a", "b"], ", ") == "a" + ", " + "b" == "a, b";
  }

  // ---- Foreign keys --------------------------------------------------------------------------------------------

  /** A foreign key; an empty schema is no schema. */
  function Normal(f: ForeignKey): ForeignKey {
    if f.referencesSchema == Some("") then f.(referencesSchema := None) else f
  }

  predicate Dotless(f: ForeignKey) {
    && Free(f.referencesTable, '.') && Free(f.referencesColumn, '.')
    && (f.referencesSchema.Some? ==> Free(f.referencesSchema.value, '.'))
  }

  function Referenced(f: ForeignKey): string {
    (if f.referencesSchema.Some? && f.referencesSchema.value != "" then f.referencesSchema.value + "." else "")
    + f.referencesTable + "." + f.referencesColumn
  }

  /** What is referenced: schema, table and column are told apart. */
  lemma ReferencedMeaning(a: ForeignKey, b: ForeignKey)
    requires Dotless(a) && Dotless(b)
    ensures Referenced(a) == Referenced(b) <==> Normal(a).(column := "") == Normal(b).(column := "")
  {
    var s, t := Normal(a).referencesSchema, Normal(b).referencesSchema;
    var x, y := a.referencesTable + "." + a.referencesColumn, b.referencesTable + "." + b.referencesColumn;
    assert Referenced(a) == if s.Some? then s.value + ['.'] + x else x;
    assert Referenced(b) == if t.Some? then t.value + ['.'] + y else y;
    assert x == a.referencesTable + ['.'] + a.referencesColumn && y == b.referencesTable + ['.'] + b.referencesColumn;
    assert x[|a.referencesTable|] == '.' && y[|b.referencesTable|] == '.';
    if Referenced(a) == Referenced(b) {
      if s.Some? && t.Some? {
        SplitAt(s.value, x, t.value, y, '.');
        SplitAt(a.referencesTable, a.referencesColumn, b.referencesTable, b.referencesColumn, '.');
      } else if s.Some? {
        SplitAt(s.value, x, b.referencesTable, b.referencesColumn, '.');
      } else if t.Some? {
        SplitAt(a.referencesTable, a.referencesColumn, t.value, y, '.');
      } else {
        SplitAt(a.referencesTable, a.referencesColumn, b.referencesTable, b.referencesColumn, '.');
      }
    }
  }

  lemma ValueIsReferenced(f: ForeignKey)
    ensures ForeignKeyValue(f) == f.column + " \U{2192} " + Referenced(f)
    ensures ForeignKeyValue(f) == (f.column + " ") + ['\U{2192}'] + (" " + Referenced(f))
  {
    var schema := if f.referencesSchema.Some? && f.referencesSchema.value != "" then f.referencesSchema.value + "." else "";
    assert Referenced(f) == schema + f.referencesTable + "." + f.referencesColumn;
    assert ForeignKeyValue(f) == f.column + " \U{2192} " + schema + f.referencesTable + "." + f.referencesColumn;
    Regroup(f.column, " \U{2192} ", schema, f.referencesTable, f.referencesColumn);
    assert " \U{2192} " == " " + ['\U{2192}'] + " ";
  }

  lemma Regroup(a: string, b: string, c: string, d: string, e: string)
    ensures a + b + c + d + "." + e == a + b + (c + d + "." + e)
  {
  }

  /** Two foreign keys are shown alike exactly when column, referenced schema, table and column agree,
      as long as the column holds no arrow and the referenced names no dots. */
  lemma ForeignKeyMeaning(a: ForeignKey, b: ForeignKey)
    requires Dotless(a) && Dotless(b) && Free(a.column, '\U{2192}') && Free(b.column, '\U{2192}')
    ensures ForeignKeyValue(a) == ForeignKeyValue(b) <==> Normal(a) == Normal(b)
  {
    hide ForeignKeyValue, Referenced;
    ValueIsReferenced(a);
    ValueIsReferenced(b);
    ReferencedMeaning(a, b);
    if ForeignKeyValue(a) == ForeignKeyValue(b) {
      SplitAt(a.column + " ", " " + Referenced(a), b.column + " ", " " + Referenced(b), '\U{2192}');
      assert a.column == (a.column + " ")[..|a.column|] && b.column == (b.column + " ")[..|b.column|];
      assert Referenced(a) == (" " + Referenced(a))[1..] && Referenced(b) == (" " + Referenced(b))[1..];
    }
  }

  /** Within one column, where keys are compared, the arrow does not matter. */
  lemma SameColumnMeaning(a: ForeignKey, b: ForeignKey)
    requires Dotless(a) && Dotless(b) && a.column == b.column
    ensures ForeignKeyValue(a) == ForeignKeyValue(b) <==> Normal(a) == Normal(b)
  {
    hide ForeignKeyValue, Referenced;
    ValueIsReferenced(a);
    ValueIsReferenced(b);
    ReferencedMeaning(a, b);
    if ForeignKeyValue(a) == ForeignKeyValue(b) {
      var head := a.column + " \U{2192} ";
      assert Referenced(a) == ForeignKeyValue(a)[|head|..] && Referenced(b) == ForeignKeyValue(b)[|head|..];
    }
  }

  /** With dots in names, or with an arrow in the column, two foreign keys can be shown alike. */
  lemma DotsAndArrowsClash()
    ensures ForeignKeyValue(ForeignKey("x", "b", "id", Some("a"))) == ForeignKeyValue(ForeignKey("x", "a.b", "id", None))
    ensures ForeignKeyValue(ForeignKey("x", "y \U{2192} t", "id", None))
            == ForeignKeyValue(ForeignKey("x \U{2192} y", "t", "id", None))
  {
    assert "x" + " \U{2192} " + ("a" + ".") + "b" + "." + "id" == "x" + " \U{2192} " + "" + "a.b" + "." + "id";
    assert "x" + " \U{2192} " + "" + "y \U{2192} t" + "." + "id" == "x \U{2192} y" + " \U{2192} " + "" + "t" + "." + "id";
  }

  // ---- The foreign keys of a table -----------------------------------------------------------------------------

  /** The foreign keys themselves, each as often as it is there. */
  function KeyBag(keys: seq<ForeignKey>): multiset<ForeignKey> {
    multiset(Map(Normal, keys))
  }

  function OfColumn(keys: seq<ForeignKey>, column: string): seq<ForeignKey> {
    if keys == [] then []
    else
      var last := keys[|keys| - 1];
      OfColumn(keys[..|keys| - 1], column) + (if last.column == column then [last] else [])
  }

  lemma {:induction false} MapAppends<S, T>(f: S -> T, xs: seq<S>, ys: seq<S>)
    ensures Map(f, xs + ys) == Map(f, xs) + Map(f, ys)
  {
    if xs == [] {
      assert xs + ys == ys;
    } else {
      assert (xs + ys)[1..] == xs[1..] + ys;
      MapAppends(f, xs[1..], ys);
    }
  }

  lemma {:induction false} ShownKeys(keys: seq<ForeignKey>, column: string)
    ensures KeysOf(keys, column) == Map(ForeignKeyValue, OfColumn(keys, column))
    ensures forall f :: f in OfColumn(keys, column) <==> f in keys && f.column == column
  {
    hide ForeignKeyValue;
    if keys != [] {
      var n := |keys| - 1;
      ShownKeys(keys[..n], column);
      MapAppends(ForeignKeyValue, OfColumn(keys[..n], column), if keys[n].column == column then [keys[n]] else []);
      assert keys == keys[..n] + [keys[n]];
      assert Map(ForeignKeyValue, [keys[n]]) == [ForeignKeyValue(keys[n])] by {
        assert [keys[n]][1..] == [];
      }
    }
  }

  lemma BagAppends(keys: seq<ForeignKey>, more: seq<ForeignKey>)
    ensures KeyBag(keys + more) == KeyBag(keys) + KeyBag(more)
  {
    MapAppends(Normal, keys, more);
  }

  lemma BagOfOne(f: ForeignKey)
    ensures KeyBag([f]) == multiset{Normal(f)} && KeyBag([]) == multiset{}
  {
    assert [f][1..] == [];
    assert Map(Normal, [f]) == [Normal(f)];
  }

  lemma OfColumnStep(keys: seq<ForeignKey>, column: string)
    requires keys != []
    ensures var n := |keys| - 1;
            OfColumn(keys, column) == OfColumn(keys[..n], column) + (if keys[n].column == column then [keys[n]] else [])
  {
  }

  lemma OneMoreOfColumn(keys: seq<ForeignKey>, column: string)
    requires keys != []
    ensures var n := |keys| - 1;
            && KeyBag(keys) == KeyBag(keys[..n]) + multiset{Normal(keys[n])}
            && KeyBag(OfColumn(keys, column)) ==
                 KeyBag(OfColumn(keys[..n], column)) + (if keys[n].column == column then multiset{Normal(keys[n])} else multiset{})
  {
    hide KeyBag, OfColumn, Normal;
    var n := |keys| - 1;
    var last := if keys[n].column == column then [keys[n]] else [];
    OfColumnStep(keys, column);
    assert keys == keys[..n] + [keys[n]];
    BagAppends(OfColumn(keys[..n], column), last);
    BagAppends(keys[..n], [keys[n]]);
    BagOfOne(keys[n]);
  }

  lemma {:induction false} BagOfColumn(keys: seq<ForeignKey>, column: string, f: ForeignKey)
    ensures KeyBag(OfColumn(keys, column))[f] == if f.column == column then KeyBag(keys)[f] else 0
  {
    if keys == [] {
      BagOfOne(f);
    } else {
      var n := |keys| - 1;
      OneMoreOfColumn(keys, column);
      BagOfColumn(keys[..n], column, f);
      assert Normal(keys[n]).column == keys[n].column;
      hide KeyBag, OfColumn, Normal;
    }
  }

  ghost predicate DotlessKeys(keys: seq<ForeignKey>) {
    forall f :: f in keys ==> Dotless(f)
  }

  lemma ColumnBags(a: seq<ForeignKey>, b: seq<ForeignKey>, column: string)
    requires DotlessKeys(a) && DotlessKeys(b)
    ensures multiset(KeysOf(a, column)) == multiset(KeysOf(b, column)) <==> KeyBag(OfColumn(a, column)) == KeyBag(OfColumn(b, column))
  {
    hide ForeignKeyValue, Normal, KeysOf, OfColumn, Map, Dotless;
    ShownKeys(a, column);
    ShownKeys(b, column);
    var x, y := OfColumn(a, column), OfColumn(b, column);
    forall f, g | f in x && g in y ensures ForeignKeyValue(f) == ForeignKeyValue(g) <==> Normal(f) == Normal(g) {
      SameColumnMeaning(f, g);
    }
    if multiset(KeysOf(a, column)) == multiset(KeysOf(b, column)) {
      SameBags(ForeignKeyValue, Normal, x, y);
    }
    if KeyBag(x) == KeyBag(y) {
      SameBags(Normal, ForeignKeyValue, x, y);
    }
  }

  ghost predicate ShownAlike(a: seq<ForeignKey>, b: seq<ForeignKey>, column: string) {
    multiset(KeysOf(a, column)) == multiset(KeysOf(b, column))
  }

  lemma KeysFromShown(a: seq<ForeignKey>, b: seq<ForeignKey>)
    requires DotlessKeys(a) && DotlessKeys(b) && forall column :: ShownAlike(a, b, column)
    ensures KeyBag(a) == KeyBag(b)
  {
    hide KeysOf, OfColumn, KeyBag, DotlessKeys;
    forall f: ForeignKey ensures KeyBag(a)[f] == KeyBag(b)[f] {
      assert ShownAlike(a, b, f.column);
      ColumnBags(a, b, f.column);
      BagOfColumn(a, f.column, f);
      BagOfColumn(b, f.column, f);
    }
  }

  lemma ShownFromKeys(a: seq<ForeignKey>, b: seq<ForeignKey>, column: string)
    requires DotlessKeys(a) && DotlessKeys(b) && KeyBag(a) == KeyBag(b)
    ensures ShownAlike(a, b, column)
  {
    hide KeysOf, OfColumn, KeyBag, DotlessKeys;
    forall f: ForeignKey ensures KeyBag(OfColumn(a, column))[f] == KeyBag(OfColumn(b, column))[f] {
      BagOfColumn(a, column, f);
      BagOfColumn(b, column, f);
    }
    assert KeyBag(OfColumn(a, column)) == KeyBag(OfColumn(b, column));
    ColumnBags(a, b, column);
  }

  /** The shown keys of every column agree exactly when the foreign keys themselves do. */
  lemma KeysThemselves(a: seq<ForeignKey>, b: seq<ForeignKey>)
    requires DotlessKeys(a) && DotlessKeys(b)
    ensures (forall column :: ShownAlike(a, b, column)) <==> KeyBag(a) == KeyBag(b)
  {
    hide ShownAlike, KeyBag, DotlessKeys;
    if forall column :: ShownAlike(a, b, column) {
      KeysFromShown(a, b);
    }
    if KeyBag(a) == KeyBag(b) {
      forall column ensures ShownAlike(a, b, column) {
        ShownFromKeys(a, b, column);
      }
    }
  }

  // ---- Lookups by name -----------------------------------------------------------------------------------------

  /** The last column of that name. */
  function FindColumn(columns: seq<Column>, name: string): Option<Column> {
    if columns == [] then None
    else if columns[|columns| - 1].name == name then Some(columns[|columns| - 1])
    else FindColumn(columns[..|columns| - 1], name)
  }

  function FindIndex(indexes: seq<Index>, name: string): Option<Index> {
    if indexes == [] then None
    else if indexes[|indexes| - 1].name == name then Some(indexes[|indexes| - 1])
    else FindIndex(indexes[..|indexes| - 1], name)
  }

  function FindTable(tables: seq<Table>, schema: string, name: string): Option<Table> {
    if tables == [] then None
    else
      var last := tables[|tables| - 1];
      if SchemaText(last) == schema && last.name == name then Some(last)
      else FindTable(tables[..|tables| - 1], schema, name)
  }

  lemma {:induction false} ColumnFound(lower: string -> string, t: Table, name: string)
    ensures var found := FindColumn(t.columns, name);
            && (name in ColumnItems(lower, t).at <==> found.Some?)
            && (found.Some? ==> found.value in t.columns
                                && ColumnItems(lower, t).at[name].signature == ColumnSignature(lower, found.value))
    decreases |t.columns|
  {
    hide ColumnSignature, ColumnValue;
    if t.columns != [] {
      var n := |t.columns| - 1;
      var before := t.(columns := t.columns[..n]);
      ColumnFound(lower, before, name);
      var pairs := seq(|t.columns|, i requires 0 <= i < |t.columns| =>
        (t.columns[i].name, Item(ColumnSignature(lower, t.columns[i]), ColumnValue(t.columns[i]))));
      assert pairs[..n] == seq(|before.columns|, i requires 0 <= i < |before.columns| =>
        (before.columns[i].name, Item(ColumnSignature(lower, before.columns[i]), ColumnValue(before.columns[i]))));
    }
  }

  lemma {:induction false} IndexFound(t: Table, name: string)
    ensures var found := FindIndex(t.indexes, name);
            && (name in IndexItems(t).at <==> found.Some?)
            && (found.Some? ==> found.value in t.indexes && IndexItems(t).at[name].signature == IndexValue(found.value))
    decreases |t.indexes|
  {
    hide IndexValue;
    if t.indexes != [] {
      var n := |t.indexes| - 1;
      var before := t.(indexes := t.indexes[..n]);
      IndexFound(before, name);
      var pairs := seq(|t.indexes|, i requires 0 <= i < |t.indexes| =>
        (t.indexes[i].name, Item(IndexValue(t.indexes[i]), IndexValue(t.indexes[i]))));
      assert pairs[..n] == seq(|before.indexes|, i requires 0 <= i < |before.indexes| =>
        (before.indexes[i].name, Item(IndexValue(before.indexes[i]), IndexValue(before.indexes[i]))));
    }
  }

  ghost predicate DotlessSchemas(tables: seq<Table>) {
    forall t :: t in tables ==> Free(SchemaText(t), '.')
  }

  lemma TablesAppend(tables: seq<Table>)
    requires tables != []
    ensures var last := tables[|tables| - 1];
            Tables(tables) == Put(Tables(tables[..|tables| - 1]), TableKey(last), last)
  {
    hide TableKey;
    var n := |tables| - 1;
    var pairs := seq(|tables|, i requires 0 <= i < |tables| => (TableKey(tables[i]), tables[i]));
    var before := tables[..n];
    assert pairs[..n] == seq(|before|, i requires 0 <= i < |before| => (TableKey(before[i]), before[i]));
  }

  lemma {:induction false} TableFound(tables: seq<Table>, schema: string, name: string)
    requires DotlessSchemas(tables) && Free(schema, '.')
    ensures var key, found := schema + "." + name, FindTable(tables, schema, name);
            && (key in Tables(tables).at <==> found.Some?)
            && (found.Some? ==> found.value in tables && Tables(tables).at[key] == found.value)
  {
    if tables != [] {
      var n := |tables| - 1;
      TablesAppend(tables);
      TableFound(tables[..n], schema, name);
      TableKeyMeaning(tables[n], Table(Some(schema), name, "", [], [], []));
      hide TableKey, Tables;
    }
  }

  lemma {:induction false} DottedIsNotFound(tables: seq<Table>, schema: string, name: string)
    requires DotlessSchemas(tables) && !Free(schema, '.')
    ensures FindTable(tables, schema, name).None?
  {
    if tables != [] {
      DottedIsNotFound(tables[..|tables| - 1], schema, name);
    }
  }

  lemma {:induction false} KeyOfTable(tables: seq<Table>, key: string) returns (t: Table)
    requires key in Tables(tables).at
    ensures t in tables && TableKey(t) == key
  {
    var n := |tables| - 1;
    if tables != [] {
      TablesAppend(tables);
      if TableKey(tables[n]) == key {
        t := tables[n];
      } else {
        t := KeyOfTable(tables[..n], key);
      }
    }
  }

  // ---- Nothing is listed exactly when the schemas are the same -------------------------------------------------

  predicate SameColumn(lower: string -> string, a: Option<Column>, b: Option<Column>) {
    match (a, b)
    case (None, None) => true
    case (Some(x), Some(y)) => lower(Trim(x.dataType)) == lower(Trim(y.dataType)) && x.nullable == y.nullable && x.pk == y.pk
    case _ => false
  }

  predicate SameIndex(a: Option<Index>, b: Option<Index>) {
    match (a, b)
    case (None, None) => true
    case (Some(x), Some(y)) => x.unique == y.unique && x.columns == y.columns
    case _ => false
  }

  /** The same kind, columns, indexes and foreign keys. */
  ghost predicate SameTable(lower: string -> string, a: Table, b: Table) {
    && a.kind == b.kind
    && (forall name :: SameColumn(lower, FindColumn(a.columns, name), FindColumn(b.columns, name)))
    && (forall name :: SameIndex(FindIndex(a.indexes, name), FindIndex(b.indexes, name)))
    && KeyBag(a.foreignKeys) == KeyBag(b.foreignKeys)
  }

  ghost predicate SameTables(lower: string -> string, a: Option<Table>, b: Option<Table>) {
    match (a, b)
    case (None, None) => true
    case (Some(x), Some(y)) => SameTable(lower, x, y)
    case _ => false
  }

  /** Names that their rendering keeps apart. */
  ghost predicate PlainTable(t: Table) {
    && Free(SchemaText(t), '.') && DotlessKeys(t.foreignKeys)
    && forall x :: x in t.indexes ==> PlainNames(x.columns)
  }

  ghost predicate PlainTables(tables: seq<Table>) {
    forall t :: t in tables ==> PlainTable(t)
  }

  lemma ColumnByName(lower: string -> string, a: Table, b: Table, name: string)
    ensures SameColumn(lower, FindColumn(a.columns, name), FindColumn(b.columns, name)) <==>
            ItemsAgree(ColumnItems(lower, a), ColumnItems(lower, b), name)
  {
    hide ColumnItems, ColumnSignature, FindColumn, Trim;
    ColumnFound(lower, a, name);
    ColumnFound(lower, b, name);
    var c, d := FindColumn(a.columns, name), FindColumn(b.columns, name);
    if c.Some? && d.Some? {
      SignatureMeaning(lower, c.value, d.value);
    }
  }

  lemma IndexByName(a: Table, b: Table, name: string)
    requires PlainTable(a) && PlainTable(b)
    ensures SameIndex(FindIndex(a.indexes, name), FindIndex(b.indexes, name)) <==>
            ItemsAgree(IndexItems(a), IndexItems(b), name)
  {
    hide IndexItems, IndexValue, FindIndex, PlainNames, DotlessKeys;
    IndexFound(a, name);
    IndexFound(b, name);
    var c, d := FindIndex(a.indexes, name), FindIndex(b.indexes, name);
    if c.Some? && d.Some? {
      IndexValueMeaning(c.value, d.value);
    }
  }

  lemma AgreeingIsSame(lower: string -> string, a: Table, b: Table)
    requires PlainTable(a) && PlainTable(b) && TablesAgree(lower, a, b)
    ensures SameTable(lower, a, b)
  {
    SameItemsByName(ColumnItems(lower, a), ColumnItems(lower, b));
    SameItemsByName(IndexItems(a), IndexItems(b));
    forall column ensures ShownAlike(a.foreignKeys, b.foreignKeys, column) {
    }
    KeysThemselves(a.foreignKeys, b.foreignKeys);
    hide ColumnItems, IndexItems, FindColumn, FindIndex, KeysOf, KeyBag, SameItems, SameColumn, SameIndex, ItemsAgree;
    forall name ensures SameColumn(lower, FindColumn(a.columns, name), FindColumn(b.columns, name)) {
      ColumnByName(lower, a, b, name);
    }
    forall name ensures SameIndex(FindIndex(a.indexes, name), FindIndex(b.indexes, name)) {
      IndexByName(a, b, name);
    }
  }

  lemma SameIsAgreeing(lower: string -> string, a: Table, b: Table)
    requires PlainTable(a) && PlainTable(b) && SameTable(lower, a, b)
    ensures TablesAgree(lower, a, b)
  {
    hide ColumnItems, IndexItems, FindColumn, FindIndex, KeyBag, SameItems, SameColumn, SameIndex, ItemsAgree, KeysOf;
    forall name ensures ItemsAgree(ColumnItems(lower, a), ColumnItems(lower, b), name) {
      assert SameColumn(lower, FindColumn(a.columns, name), FindColumn(b.columns, name));
      ColumnByName(lower, a, b, name);
    }
    forall name ensures ItemsAgree(IndexItems(a), IndexItems(b), name) {
      assert SameIndex(FindIndex(a.indexes, name), FindIndex(b.indexes, name));
      IndexByName(a, b, name);
    }
    SameItemsByName(ColumnItems(lower, a), ColumnItems(lower, b));
    SameItemsByName(IndexItems(a), IndexItems(b));
    KeysThemselves(a.foreignKeys, b.foreignKeys);
    forall column ensures multiset(KeysOf(a.foreignKeys, column)) == multiset(KeysOf(b.foreignKeys, column)) {
      assert ShownAlike(a.foreignKeys, b.foreignKeys, column);
    }
  }

  predicate ItemsAgree(a: Dict<Item>, b: Dict<Item>, name: string) {
    && (name in a.at <==> name in b.at)
    && (name in a.at && name in b.at ==> a.at[name].signature == b.at[name].signature)
  }

  lemma SameItemsByName(a: Dict<Item>, b: Dict<Item>)
    ensures SameItems(a, b) <==> forall name :: ItemsAgree(a, b, name)
  {
    if forall name :: ItemsAgree(a, b, name) {
      forall name ensures name in a.at <==> name in b.at {
        assert ItemsAgree(a, b, name);
      }
      assert a.at.Keys == b.at.Keys;
      forall name | name in a.at && name in b.at ensures a.at[name].signature == b.at[name].signature {
        assert ItemsAgree(a, b, name);
      }
    }
  }

  /** The total is zero exactly when every table of either catalog is in both, with the same kind, the
      same columns up to the case and the surrounding blanks of their types, the same indexes, and the
      same foreign keys, each as often; for names that their rendering keeps apart. */
  lemma NothingListedExactly(lower: string -> string, current: seq<Table>, baseline: seq<Table>)
    requires PlainTables(current) && PlainTables(baseline)
    ensures |Differences(lower, Tables(current), Tables(baseline))| == 0 <==>
            forall schema, name :: FoundAlike(lower, current, baseline, schema, name)
  {
    hide Differences, Tables, SameTables, FindTable, PlainTables, CatalogsAgree;
    TotalIsZeroExactly(lower, current, baseline);
    if CatalogsAgree(lower, Tables(current), Tables(baseline)) {
      forall schema, name ensures FoundAlike(lower, current, baseline, schema, name) {
        AgreementFinds(lower, current, baseline, schema, name);
      }
    }
    if forall schema, name :: FoundAlike(lower, current, baseline, schema, name) {
      AllFoundAgree(lower, current, baseline);
    }
  }

  /** The same table, or none, under this schema and name. */
  ghost predicate FoundAlike(lower: string -> string, current: seq<Table>, baseline: seq<Table>, schema: string, name: string) {
    SameTables(lower, FindTable(current, schema, name), FindTable(baseline, schema, name))
  }

  lemma AllFoundAgree(lower: string -> string, current: seq<Table>, baseline: seq<Table>)
    requires PlainTables(current) && PlainTables(baseline)
    requires forall schema, name :: FoundAlike(lower, current, baseline, schema, name)
    ensures CatalogsAgree(lower, Tables(current), Tables(baseline))
  {
    hide Tables, TablesAgree, SameTables, FindTable, PlainTables;
    var a, b := Tables(current).at, Tables(baseline).at;
    forall key | key in a ensures key in b && TablesAgree(lower, a[key], b[key]) {
      FoundAgrees(lower, current, baseline, current, key);
    }
    forall key | key in b ensures key in a {
      FoundAgrees(lower, current, baseline, baseline, key);
    }
    assert a.Keys == b.Keys;
  }

  lemma PlainIsDotless(tables: seq<Table>)
    requires PlainTables(tables)
    ensures DotlessSchemas(tables)
  {
  }

  lemma AgreementFinds(lower: string -> string, current: seq<Table>, baseline: seq<Table>, schema: string, name: string)
    requires PlainTables(current) && PlainTables(baseline)
    requires CatalogsAgree(lower, Tables(current), Tables(baseline))
    ensures FoundAlike(lower, current, baseline, schema, name)
  {
    hide Tables, TablesAgree, SameTable, FindTable, PlainTable, TableKey;
    PlainIsDotless(current);
    PlainIsDotless(baseline);
    if Free(schema, '.') {
      TableFound(current, schema, name);
      TableFound(baseline, schema, name);
      var a, b := FindTable(current, schema, name), FindTable(baseline, schema, name);
      if a.Some? && b.Some? {
        AgreeingIsSame(lower, a.value, b.value);
      }
    } else {
      DottedIsNotFound(current, schema, name);
      DottedIsNotFound(baseline, schema, name);
    }
  }

  lemma FoundAgrees(lower: string -> string, current: seq<Table>, baseline: seq<Table>, tables: seq<Table>, key: string)
    requires PlainTables(current) && PlainTables(baseline) && (tables == current || tables == baseline) && key in Tables(tables).at
    requires forall schema, name :: FoundAlike(lower, current, baseline, schema, name)
    ensures key in Tables(current).at && key in Tables(baseline).at
    ensures TablesAgree(lower, Tables(current).at[key], Tables(baseline).at[key])
  {
    var t := KeyOfTable(tables, key);
    assert PlainTable(t);
    assert key == SchemaText(t) + "." + t.name;
    hide Tables, TablesAgree, SameTable, FindTable, TableKey;
    PlainIsDotless(current);
    PlainIsDotless(baseline);
    TableFound(current, SchemaText(t), t.name);
    TableFound(baseline, SchemaText(t), t.name);
    var a, b := FindTable(current, SchemaText(t), t.name), FindTable(baseline, SchemaText(t), t.name);
    assert FoundAlike(lower, current, baseline, SchemaText(t), t.name);
    assert a.Some? || b.Some?;
    SameIsAgreeing(lower, a.value, b.value);
  }
}
